/** The record types shared by the reconciler, the report assembler and the reader. */
module Models {
  import opened Wrappers

  /** Where an account was read from (the `SourceLiteral` of the models). */
  datatype Source = Excel | QuickBooks

  /** The literal each source is serialised as. */
  function SourceText(s: Source): (t: string)
    ensures t == "excel" || t == "quickbooks"
  {
    match s
    case Excel => "excel"
    case QuickBooks => "quickbooks"
  }

  /** Reads a source literal back; anything but the two literals is rejected. */
  function SourceFromText(t: string): (s: Option<Source>)
    ensures s.Some? <==> (t == "excel" || t == "quickbooks")
  {
    if t == "excel" then Some(Excel)
    else if t == "quickbooks" then Some(QuickBooks)
    else None
  }

  lemma SourceTextRoundTrip(s: Source)
    ensures SourceFromText(SourceText(s)) == Some(s)
  {
  }

  /** One ledger account as one source sees it. */
  datatype Account = Account(accountType: string, number: string, name: string, id: string, source: Source)

  /**
   * Every reason a conflict can carry: the two the models declare, the one the
   * runner synthesises, and the four the secondary matching passes produce.
   */
  datatype Reason =
    | DataMismatch
    | OnlyInExcel
    | MissingInExcel
    | NameMismatch
    | IdConflict
    | NumberConflict
    | NameConflict

  /** The literal each reason is serialised as. */
  function ReasonText(r: Reason): (t: string)
    ensures t in {"data_mismatch", "only_in_excel", "missing_in_excel", "name_mismatch", "id_conflict",
                  "number_conflict", "name_conflict"}
  {
    match r
    case DataMismatch => "data_mismatch"
    case OnlyInExcel => "only_in_excel"
    case MissingInExcel => "missing_in_excel"
    case NameMismatch => "name_mismatch"
    case IdConflict => "id_conflict"
    case NumberConflict => "number_conflict"
    case NameConflict => "name_conflict"
  }

  /** Reads a reason literal back. */
  function ReasonFromText(t: string): Option<Reason>
  {
    if t == "data_mismatch" then Some(DataMismatch)
    else if t == "only_in_excel" then Some(OnlyInExcel)
    else if t == "missing_in_excel" then Some(MissingInExcel)
    else if t == "name_mismatch" then Some(NameMismatch)
    else if t == "id_conflict" then Some(IdConflict)
    else if t == "number_conflict" then Some(NumberConflict)
    else if t == "name_conflict" then Some(NameConflict)
    else None
  }

  /** Distinct reasons are serialised as distinct literals, so the literal identifies the reason. */
  lemma ReasonTextRoundTrip(r: Reason)
    ensures ReasonFromText(ReasonText(r)) == Some(r)
  {
  }

  /**
   * A discrepancy between an Excel and a QuickBooks account: the shared id,
   * both sides' type, name and number (absent on the side a one-sided
   * conflict does not have), and why it was raised.
   */
  datatype Conflict = Conflict(
    id: string,
    excelType: string,
    qbType: Option<string>,
    excelName: Option<string>,
    qbName: Option<string>,
    excelNumber: Option<string>,
    qbNumber: Option<string>,
    reason: Reason)

  /** The three outcome lists of one comparison. */
  datatype ComparisonReport = ComparisonReport(
    addedChartOfAccounts: seq<Account>,
    qbOnly: seq<Account>,
    conflicts: seq<Conflict>)

  /** A freshly constructed report: every list takes its empty default. */
  function EmptyReport(): (r: ComparisonReport)
    ensures |r.addedChartOfAccounts| == 0 && |r.qbOnly| == 0 && |r.conflicts| == 0
  {
    ComparisonReport([], [], [])
  }
}
