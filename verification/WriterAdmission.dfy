/** The post-fill gate of a writer sleeve: solvency with buffer, and drawdown limits, at every settlement price. */
module WriterAdmission {
  import opened Numbers
  import opened Sums
  import opened WriterSeries
  import opened WriterReserve
  import opened PreparedReserve

  datatype AdmissionError =
    | Arithmetic | InvalidPolicy | InvalidBook | InvalidRetirement | BudgetExceeded | PriceSeparation
    | Insolvency | Drawdown | CloseHasPriority | Envelope(inner: WriterError)

  datatype Outcome<T> = Admit(value: T) | Refuse(error: AdmissionError) {
    predicate IsFailure() { Refuse? }
    function PropagateFailure<U>(): Outcome<U>
      requires Refuse?
    {
      Refuse(error)
    }
    function Extract(): T
      requires Admit?
    {
      value
    }
  }

  datatype SecurityMode = GrossExternalMaximumPayout | ExactExternalEnvelope

  datatype Risk = Risk(
    buffer: u64, sharedReserve: bool, worstPpm: u64, lowerPpm: u64, upperPpm: u64, lowerTail: u64, upperTail: u64,
        mode: SecurityMode)

  datatype Cash = Cash(assets: u64, principal: u64, committed: u64, pooled: u64)

  /** A reserve summary, the free cash and the security exposure of an admitted state. */
  datatype Admitted = Admitted(summary: ReserveSummary, free: u64, exposure: u64)

  function AddChecked(a: int, b: int): Outcome<u64> {
    if 0 <= a + b <= U64_MAX then Admit(a + b) else Refuse(Arithmetic)
  }

  function Enveloped<T>(r: Result<T>): Outcome<T> {
    if r.Ok? then Admit(r.value) else Refuse(Envelope(r.error))
  }

  /** `check_drawdown`, division-free. */
  function CheckDrawdown(assets: u64, principal: u64, liability: int, limit: u64): Outcome<()> {
    if limit > RATIO_SCALE_PPM || principal == 0 then Refuse(InvalidPolicy)
    else if assets < liability then Refuse(Insolvency)
    else if SatSub(principal, assets - liability) * RATIO_SCALE_PPM > principal * limit then Refuse(Drawdown)
    else Admit(())
  }

  /** The division-free comparison is the one the policy states: the loss is at most the floored allowance. */
  lemma DrawdownIsAllowance(assets: u64, principal: u64, liability: u64, limit: u64)
    requires liability <= assets
    ensures CheckDrawdown(assets, principal, liability, limit).Admit? <==>
            && principal > 0 && limit <= RATIO_SCALE_PPM
            && SatSub(principal, assets - liability) <= principal * limit / RATIO_SCALE_PPM
  {
    var loss := SatSub(principal, assets - liability);
    var allowed := principal * limit / RATIO_SCALE_PPM;
    FloorBounds(principal * limit, RATIO_SCALE_PPM);
    if loss * RATIO_SCALE_PPM <= principal * limit {
      FloorGreatest(principal * limit, RATIO_SCALE_PPM, loss);
    } else if loss <= allowed {
      MulMono(loss, allowed, RATIO_SCALE_PPM);
    }
  }

  /** `admit_writer_dlmm_cash_summary`. */
  function AdmitSummary(s: ReserveSummary, exposure: u64, cash: Cash, risk: Risk): Outcome<Admitted> {
    if cash.committed > cash.pooled then Refuse(InvalidBook)
    else
      var held :- AddChecked(if risk.sharedReserve then Max(s.reserve, cash.pooled) else s.reserve, risk.buffer);
      if cash.assets < held then Refuse(Insolvency)
      else
        var free := cash.assets - held;
        if !risk.sharedReserve && cash.committed > free then Refuse(Insolvency)
        else
          var _ :- CheckDrawdown(cash.assets, cash.principal, s.reserve, risk.worstPpm);
          var _ :- CheckDrawdown(cash.assets, cash.principal, s.lowerReserve, risk.lowerPpm);
          var _ :- CheckDrawdown(cash.assets, cash.principal, s.upperReserve, risk.upperPpm);
          Admit(Admitted(s, free, exposure))
  }

  /** `gross_external_maximum_payout`. */
  function GrossPayout(book: seq<Series>): Result<u64> {
    var _ :- ValidateBook(book);
    SumNonNegativeGross(book);
    if Gross(book) <= U64_MAX then Ok(Gross(book)) else Err(ArithmeticOverflow)
  }

  lemma SumNonNegativeGross(book: seq<Series>)
    ensures Gross(book) >= 0
  {
    forall s | s in book ensures GrossTerm()(s) >= 0 {
      GrossTermNonNegative(s);
    }
    SumNonNegative(book, GrossTerm());
  }

  /** The loop over the series with its checked steps. */
  method GrossLoop(book: seq<Series>) returns (r: Result<u64>)
    ensures r == GrossPayout(book)
  {
    var valid := CheckBook(book);
    if valid.Err? { return Err(valid.error); }
    var total: u64 := 0;
    for i := 0 to |book|
      invariant total == Gross(book[..i])
    {
      var s := book[i];
      assert book[..i + 1] == book[..i] + [s];
      SumSnoc(book[..i], s, GrossTerm());
      PrefixGross(book, i + 1);
      ProductFits(s.oi, s.maxPayout);
      SumNonNegativeGross(book[..i]);
      hide Gross, CeilDiv, ValidateBook;
      var numerator: int := s.oi * s.maxPayout;
      var own := LiabilityAtoms(numerator);
      GrossTermNonNegative(s);
      GrossSnoc(book[..i], s);
      if own.Err? { return Err(ArithmeticOverflow); }
      if total + own.value > U64_MAX { return Err(ArithmeticOverflow); }
      total := total + own.value;
    }
    assert book[..|book|] == book;
    return Ok(total);
  }

  lemma GrossSnoc(book: seq<Series>, s: Series)
    ensures Gross(book + [s]) == Gross(book) + CeilDiv(s.oi * s.maxPayout, SCALE)
    ensures CeilDiv(s.oi * s.maxPayout, SCALE) >= 0
  {
    SumSnoc(book, s, GrossTerm());
    GrossTermNonNegative(s);
  }

  lemma PrefixGross(book: seq<Series>, i: nat)
    requires i <= |book|
    ensures Gross(book[..i]) <= Gross(book)
  {
    assert book == book[..i] + book[i..];
    SumConcat(book[..i], book[i..], GrossTerm());
    SumNonNegativeGross(book[i..]);
  }

  /** `security_exposure`. */
  function Exposure(mode: SecurityMode, book: seq<Series>, reserve: int): Result<int> {
    if mode.GrossExternalMaximumPayout? then GrossPayout(book) else Ok(reserve)
  }

  /** `admit_writer_dlmm_cash`: the fresh full-book admission. */
  function AdmitCash(book: seq<Series>, cash: Cash, risk: Risk): Outcome<Admitted> {
    var s :- Enveloped(ExactReserve(book, risk.lowerTail, risk.upperTail));
    var a :- AdmitSummary(s, 0, cash, risk);
    var exposure :- Enveloped(Exposure(risk.mode, book, s.reserve));
    if 0 <= exposure <= U64_MAX then Admit(a.(exposure := exposure)) else Refuse(Arithmetic)
  }

  // ---- What admission means at every price ------------------------------------------------------------

  /** The loss of principal when `liability` is paid stays within the limit. */
  predicate WithinDrawdown(cash: Cash, liability: int, limit: int) {
    SatSub(cash.principal, cash.assets - liability) * RATIO_SCALE_PPM <= cash.principal * limit
  }

  /** One settlement price: cash covers liability, buffer and commitments, and every applicable limit holds. */
  predicate SafeAt(book: seq<Series>, cash: Cash, risk: Risk, x: int) {
    var l := Liability(book, x);
    && l + risk.buffer + (if risk.sharedReserve then 0 else cash.committed) <= cash.assets
    && (risk.sharedReserve ==> cash.pooled + risk.buffer <= cash.assets)
    && WithinDrawdown(cash, l, risk.worstPpm)
    && (x <= risk.lowerTail ==> WithinDrawdown(cash, l, risk.lowerPpm))
    && (x >= risk.upperTail ==> WithinDrawdown(cash, l, risk.upperPpm))
  }

  ghost predicate SafeEverywhere(book: seq<Series>, cash: Cash, risk: Risk) {
    forall x: u64 :: SafeAt(book, cash, risk, x)
  }

  /** The policy and book conditions that do not depend on a price. */
  predicate WellPosed(book: seq<Series>, cash: Cash, risk: Risk) {
    && ExactReserve(book, risk.lowerTail, risk.upperTail).Ok?
    && (risk.mode.GrossExternalMaximumPayout? ==> GrossPayout(book).Ok?)
    && PolicyOk(cash, risk)
  }

  predicate PolicyOk(cash: Cash, risk: Risk) {
    && cash.committed <= cash.pooled && cash.principal > 0
    && risk.worstPpm <= RATIO_SCALE_PPM && risk.lowerPpm <= RATIO_SCALE_PPM && risk.upperPpm <= RATIO_SCALE_PPM
  }

  lemma DrawdownMonotone(cash: Cash, l: int, l': int, limit: int)
    requires l <= l' && WithinDrawdown(cash, l', limit)
    ensures WithinDrawdown(cash, l, limit)
  {
    MulMono(SatSub(cash.principal, cash.assets - l), SatSub(cash.principal, cash.assets - l'), RATIO_SCALE_PPM);
  }

  /** The gates on the three reserves. */
  predicate ReservesSafe(s: ReserveSummary, cash: Cash, risk: Risk) {
    && s.reserve + risk.buffer + (if risk.sharedReserve then 0 else cash.committed) <= cash.assets
    && (risk.sharedReserve ==> cash.pooled + risk.buffer <= cash.assets)
    && WithinDrawdown(cash, s.reserve, risk.worstPpm)
    && WithinDrawdown(cash, s.lowerReserve, risk.lowerPpm)
    && WithinDrawdown(cash, s.upperReserve, risk.upperPpm)
  }

  predicate Sane(s: ReserveSummary) {
    0 <= s.reserve <= U64_MAX && 0 <= s.lowerReserve <= s.reserve && 0 <= s.upperReserve <= s.reserve
  }

  lemma SummaryDecides(s: ReserveSummary, exposure: u64, cash: Cash, risk: Risk)
    requires Sane(s)
    ensures AdmitSummary(s, exposure, cash, risk).Admit? <==> PolicyOk(cash, risk) && ReservesSafe(s, cash, risk)
  {}

  /** Bounding and attained reserves carry the gates to every price and back. */
  lemma ReservesSafeIff(book: seq<Series>, cash: Cash, risk: Risk)
    requires ExactReserve(book, risk.lowerTail, risk.upperTail).Ok?
    ensures ReservesSafe(ExactReserve(book, risk.lowerTail, risk.upperTail).value, cash, risk) <==>
            SafeEverywhere(book, cash, risk)
  {
    var s := ExactReserve(book, risk.lowerTail, risk.upperTail).value;
    if ReservesSafe(s, cash, risk) {
      forall x: u64 ensures SafeAt(book, cash, risk, x) {
        ReservesCarry(book, cash, risk, x);
      }
    }
    if SafeEverywhere(book, cash, risk) {
      ReserveIsExact(book, risk.lowerTail, risk.upperTail, 0);
      hide ExactReserve, Liability;
      assert SafeAt(book, cash, risk, s.reserveAt);
      assert SafeAt(book, cash, risk, s.lowerAt);
      assert SafeAt(book, cash, risk, s.upperAt);
    }
  }

  lemma ReservesCarry(book: seq<Series>, cash: Cash, risk: Risk, x: u64)
    requires ExactReserve(book, risk.lowerTail, risk.upperTail).Ok?
    requires ReservesSafe(ExactReserve(book, risk.lowerTail, risk.upperTail).value, cash, risk)
    ensures SafeAt(book, cash, risk, x)
  {
    var s := ExactReserve(book, risk.lowerTail, risk.upperTail).value;
    ReserveIsExact(book, risk.lowerTail, risk.upperTail, x);
    hide ExactReserve, Liability, WithinDrawdown;
    var l := Liability(book, x);
    DrawdownMonotone(cash, l, s.reserve, risk.worstPpm);
    if x <= risk.lowerTail { DrawdownMonotone(cash, l, s.lowerReserve, risk.lowerPpm); }
    if x >= risk.upperTail { DrawdownMonotone(cash, l, s.upperReserve, risk.upperPpm); }
  }

  /**
   * A full-book admission succeeds exactly when the state is well posed and, at every u64 settlement price,
   * cash covers liability plus buffer and the loss stays within every limit that applies there.
   */
  lemma AdmitCashIff(book: seq<Series>, cash: Cash, risk: Risk)
    ensures AdmitCash(book, cash, risk).Admit? <==> WellPosed(book, cash, risk) && SafeEverywhere(book, cash, risk)
  {
    hide ExactReserve, Liability, SafeEverywhere, GrossPayout, ReservesSafe, AdmitCash, AdmitSummary, PolicyOk;
    AdmitCashUnfold(book, cash, risk);
    if ExactReserve(book, risk.lowerTail, risk.upperTail).Ok? {
      var s := ExactReserve(book, risk.lowerTail, risk.upperTail).value;
      ReserveIsExact(book, risk.lowerTail, risk.upperTail, 0);
      ReservesSafeIff(book, cash, risk);
      SummaryDecides(s, 0, cash, risk);
    }
  }

  lemma AdmitCashUnfold(book: seq<Series>, cash: Cash, risk: Risk)
    ensures var r := ExactReserve(book, risk.lowerTail, risk.upperTail);
            AdmitCash(book, cash, risk).Admit? <==>
            && r.Ok? && AdmitSummary(r.value, 0, cash, risk).Admit?
            && (risk.mode.GrossExternalMaximumPayout? ==> GrossPayout(book).Ok?)
  {
    if ExactReserve(book, risk.lowerTail, risk.upperTail).Ok? {
      ReserveIsExact(book, risk.lowerTail, risk.upperTail, 0);
    }
    hide ExactReserve, GrossPayout, CheckDrawdown, Liability;
  }

  /** What an admission reports: the exact reserve, the cash beyond reserve and buffer, and the policy's exposure. */
  lemma AdmitCashReports(book: seq<Series>, cash: Cash, risk: Risk)
    requires AdmitCash(book, cash, risk).Admit?
    ensures var a := AdmitCash(book, cash, risk).value;
            && ExactReserve(book, risk.lowerTail, risk.upperTail) == Ok(a.summary)
            && a.free + risk.buffer + (if risk.sharedReserve then Max(a.summary.reserve, cash.pooled)
                                       else a.summary.reserve) == cash.assets
            && a.exposure == if risk.mode.GrossExternalMaximumPayout? then Gross(book) else a.summary.reserve
  {
    hide ExactReserve, CheckDrawdown, ValidateBook, Gross;
  }
}
