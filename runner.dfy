/**
 * Report assembly for one synchronisation run: the dictionary shapes the
 * JSON report uses, the count of identical records, the report path, and the
 * success / error payload built around the comparison.
 */
module Runner {
  import opened Wrappers
  import opened Models
  import opened Compare

  /** The report file used when no output path is given. */
  const DefaultReportName: string := "payment_terms_report.json"

  // ---------------------------------------------------------------------------
  // Report path
  // ---------------------------------------------------------------------------

  /** The given output path when it is present and non-empty, otherwise the default name. */
  function ReportPath(outputPath: Option<string>): (p: string)
    ensures outputPath.Some? && outputPath.value != "" ==> p == outputPath.value
    ensures outputPath.None? || outputPath.value == "" ==> p == DefaultReportName
  {
    if outputPath.Some? && outputPath.value != "" then outputPath.value else DefaultReportName
  }

  /** The report is always written somewhere: the chosen path is never empty. */
  lemma ReportPathNonEmpty(outputPath: Option<string>)
    ensures ReportPath(outputPath) != ""
  {
  }

  // ---------------------------------------------------------------------------
  // Dictionary shapes
  // ---------------------------------------------------------------------------

  /** The keys of an added-account entry. */
  const AccountKeys: set<string> := {"id", "name", "number", "type", "source"}

  /** The keys of a conflict entry, both for real and for synthetic conflicts. */
  const ConflictKeys: set<string> :=
    {"record_id", "excel_name", "qb_name", "excel_number", "qb_number", "excel_type", "qb_type", "reason"}

  /** An account as an entry of the report's `added_chart_of_accounts` list. */
  function AccountToDict(a: Account): (m: map<string, string>)
    ensures m.Keys == AccountKeys
  {
    map["id" := a.id, "name" := a.name, "number" := a.number, "type" := a.accountType,
        "source" := SourceText(a.source)]
  }

  /** Reads an added-account entry back; a missing key or an unknown source is rejected. */
  function AccountFromDict(m: map<string, string>): Option<Account>
  {
    if "id" in m && "name" in m && "number" in m && "type" in m && "source" in m
       && SourceFromText(m["source"]).Some?
    then Some(Account(m["type"], m["number"], m["name"], m["id"], SourceFromText(m["source"]).value))
    else None
  }

  /** Every field of an account is copied unchanged under its key, so the entry gives the account back. */
  lemma AccountDictRoundTrip(a: Account)
    ensures AccountFromDict(AccountToDict(a)) == Some(a)
  {
    SourceTextRoundTrip(a.source);
  }

  /** Conversely, an entry with exactly the account keys that reads back is the entry of that account. */
  lemma AccountDictDetermined(m: map<string, string>)
    requires m.Keys == AccountKeys
    requires AccountFromDict(m).Some?
    ensures AccountToDict(AccountFromDict(m).value) == m
  {
    var a := AccountFromDict(m).value;
    assert SourceText(a.source) == m["source"];
    assert AccountToDict(a).Keys == m.Keys;
  }

  /** A comparison conflict as an entry of the report's `conflicts` list. */
  function ConflictToDict(c: Conflict): (m: map<string, Option<string>>)
    ensures m.Keys == ConflictKeys
  {
    map["record_id" := Some(c.id),
        "excel_name" := c.excelName,
        "qb_name" := c.qbName,
        "excel_number" := c.excelNumber,
        "qb_number" := c.qbNumber,
        "excel_type" := Some(c.excelType),
        "qb_type" := c.qbType,
        "reason" := Some(ReasonText(c.reason))]
  }

  /**
   * Reads a conflict entry back. The id, the Excel type and the reason must be
   * present and the reason must be a known literal.
   */
  function ConflictFromDict(m: map<string, Option<string>>): Option<Conflict>
  {
    if ConflictKeys <= m.Keys && m["record_id"].Some? && m["excel_type"].Some? && m["reason"].Some?
       && ReasonFromText(m["reason"].value).Some?
    then Some(Conflict(m["record_id"].value, m["excel_type"].value, m["qb_type"], m["excel_name"], m["qb_name"],
                       m["excel_number"], m["qb_number"], ReasonFromText(m["reason"].value).value))
    else None
  }

  /** Every field of a conflict is copied unchanged under its key, so the entry gives the conflict back. */
  lemma ConflictDictRoundTrip(c: Conflict)
    ensures ConflictFromDict(ConflictToDict(c)) == Some(c)
  {
    ReasonTextRoundTrip(c.reason);
  }

  /** The synthetic conflict entry for an account only QuickBooks has. */
  function MissingInExcelConflict(a: Account): (m: map<string, Option<string>>)
    ensures m.Keys == ConflictKeys
  {
    map["record_id" := Some(a.id),
        "excel_name" := None,
        "qb_name" := Some(a.name),
        "excel_number" := None,
        "qb_number" := Some(a.number),
        "excel_type" := None,
        "qb_type" := Some(a.accountType),
        "reason" := Some(ReasonText(MissingInExcel))]
  }

  /**
   * A synthetic entry carries the QuickBooks account's id, name, number and
   * type, leaves every Excel field empty and has reason `missing_in_excel`.
   */
  lemma MissingInExcelCarriesAccount(a: Account)
    ensures var m := MissingInExcelConflict(a);
      && m["record_id"] == Some(a.id)
      && m["qb_name"] == Some(a.name) && m["qb_number"] == Some(a.number) && m["qb_type"] == Some(a.accountType)
      && m["excel_name"].None? && m["excel_number"].None? && m["excel_type"].None?
      && m["reason"].Some? && ReasonFromText(m["reason"].value) == Some(MissingInExcel)
  {
  }

  /** A synthetic entry never reads back as a comparison conflict: its Excel type is empty. */
  lemma MissingInExcelIsNotAConflict(a: Account)
    ensures ConflictFromDict(MissingInExcelConflict(a)).None?
    ensures forall c :: ConflictToDict(c) != MissingInExcelConflict(a)
  {
    forall c
      ensures ConflictToDict(c) != MissingInExcelConflict(a)
    {
      assert ConflictToDict(c)["excel_type"].Some?;
    }
  }

  // ---------------------------------------------------------------------------
  // Matching records
  // ---------------------------------------------------------------------------

  /** One iteration of the counting loop: the id is matched exactly when its records agree. */
  lemma CountStep(excel: seq<Account>, qb: seq<Account>, pending: set<string>, matched: set<string>, id: string)
    requires pending <= IndexBy(excel, ById).Keys * IndexBy(qb, ById).Keys
    requires matched == PerfectIds(excel, qb) - pending
    requires id in pending
    ensures id !in matched
    ensures SameData(IndexBy(excel, ById)[id], IndexBy(qb, ById)[id]) ==>
      matched + {id} == PerfectIds(excel, qb) - (pending - {id})
    ensures !SameData(IndexBy(excel, ById)[id], IndexBy(qb, ById)[id]) ==>
      matched == PerfectIds(excel, qb) - (pending - {id})
  {
  }

  /** Loop over the shared ids counting those whose name, number and type all agree. */
  method CountMatchingTerms(excel: seq<Account>, qb: seq<Account>) returns (matches: nat)
    ensures matches == |PerfectIds(excel, qb)|
  {
    var excelById := IndexBy(excel, ById);
    var qbById := IndexBy(qb, ById);
    matches := 0;
    var pending := excelById.Keys * qbById.Keys;
    ghost var perfect := PerfectIds(excel, qb);
    ghost var matched: set<string> := {};
    while pending != {}
      invariant pending <= excelById.Keys * qbById.Keys
      invariant matched == perfect - pending
      invariant matches == |matched|
      decreases pending
    {
      var recordId :| recordId in pending;
      CountStep(excel, qb, pending, matched, recordId);
      var excelTerm := excelById[recordId];
      var qbTerm := qbById[recordId];
      if excelTerm.name == qbTerm.name && excelTerm.number == qbTerm.number
         && excelTerm.accountType == qbTerm.accountType {
        matches := matches + 1;
        matched := matched + {recordId};
      }
      pending := pending - {recordId};
    }
  }

  /** Every shared id is either an identical record or a mismatching one, never both. */
  lemma SharedIdsSplit(excel: seq<Account>, qb: seq<Account>)
    ensures PerfectIds(excel, qb) + MismatchIds(excel, qb) == SharedIds(excel, qb)
    ensures PerfectIds(excel, qb) !! MismatchIds(excel, qb)
    ensures |PerfectIds(excel, qb)| + |MismatchIds(excel, qb)| == |SharedIds(excel, qb)|
  {
  }

  /**
   * Alongside the id-only comparison, the identical-record count plus the
   * number of `data_mismatch` conflicts is the number of shared distinct ids.
   */
  lemma SameAccountsPlusConflicts(r: ComparisonReport, excel: seq<Account>, qb: seq<Account>)
    requires IsComparisonOf(r, excel, qb)
    ensures |PerfectIds(excel, qb)| + |r.conflicts| == |SharedIds(excel, qb)|
  {
    SharedIdsSplit(excel, qb);
    DistinctConflictIdsCard(r.conflicts);
  }

  /** The identical-record count is bounded by each side's number of distinct ids. */
  lemma SameAccountsBounded(excel: seq<Account>, qb: seq<Account>)
    ensures |PerfectIds(excel, qb)| <= |KeysOf(excel, ById)|
    ensures |PerfectIds(excel, qb)| <= |KeysOf(qb, ById)|
  {
    var p := PerfectIds(excel, qb);
    var e, q := KeysOf(excel, ById), KeysOf(qb, ById);
    assert e == p + (e - p);
    assert q == p + (q - p);
  }

  // ---------------------------------------------------------------------------
  // The payload
  // ---------------------------------------------------------------------------

  /** The JSON report: its status, timestamp, added accounts, conflicts, identical-record count and error. */
  datatype Payload = Payload(
    status: string,
    generatedAt: string,
    addedChartOfAccounts: seq<map<string, string>>,
    conflicts: seq<map<string, Option<string>>>,
    sameAccounts: nat,
    error: Option<string>)

  /** The payload before any step has run: a success shape with empty lists. */
  function InitialPayload(generatedAt: string): (p: Payload)
    ensures p.status == "success" && p.error.None?
    ensures p.addedChartOfAccounts == [] && p.conflicts == [] && p.sameAccounts == 0
  {
    Payload("success", generatedAt, [], [], 0, None)
  }

  /** The payload after a failing step: the initial lists, status `error` and the failure's message. */
  function ErrorPayload(generatedAt: string, message: string): (p: Payload)
    ensures p.status == "error" && p.error == Some(message)
    ensures p.addedChartOfAccounts == [] && p.conflicts == [] && p.sameAccounts == 0
  {
    InitialPayload(generatedAt).(status := "error", error := Some(message))
  }

  /** One added-account entry per account, in order. */
  function AccountEntries(accounts: seq<Account>): (r: seq<map<string, string>>)
    ensures |r| == |accounts|
    ensures forall i :: 0 <= i < |accounts| ==> r[i] == AccountToDict(accounts[i]) && r[i].Keys == AccountKeys
    ensures forall i :: 0 <= i < |accounts| ==> AccountFromDict(r[i]) == Some(accounts[i])
  {
    seq(|accounts|, i requires 0 <= i < |accounts| => AccountDictRoundTrip(accounts[i]); AccountToDict(accounts[i]))
  }

  /** One conflict entry per comparison conflict, in order. */
  function ConflictEntries(cs: seq<Conflict>): (r: seq<map<string, Option<string>>>)
    ensures |r| == |cs|
    ensures forall i :: 0 <= i < |cs| ==> r[i] == ConflictToDict(cs[i]) && r[i].Keys == ConflictKeys
    ensures forall i :: 0 <= i < |cs| ==> ConflictFromDict(r[i]) == Some(cs[i])
  {
    seq(|cs|, i requires 0 <= i < |cs| => ConflictDictRoundTrip(cs[i]); ConflictToDict(cs[i]))
  }

  /** One synthetic `missing_in_excel` entry per QuickBooks-only account, in order. */
  function MissingEntries(accounts: seq<Account>): (r: seq<map<string, Option<string>>>)
    ensures |r| == |accounts|
    ensures forall i :: 0 <= i < |accounts| ==>
      "record_id" in r[i] && r[i]["record_id"] == Some(accounts[i].id) && ConflictFromDict(r[i]).None?
  {
    seq(|accounts|, i requires 0 <= i < |accounts| =>
      MissingInExcelIsNotAConflict(accounts[i]); MissingInExcelConflict(accounts[i]))
  }

  /** The report's conflicts: the comparison's own, then one synthetic entry per QuickBooks-only account. */
  function PayloadConflicts(comparison: ComparisonReport): seq<map<string, Option<string>>>
  {
    ConflictEntries(comparison.conflicts) + MissingEntries(comparison.qbOnly)
  }

  /**
   * The report's conflicts list: its length is the sum of the two counts, the
   * first part reads back as the comparison's conflicts in order, and the rest
   * are synthetic entries for the QuickBooks-only accounts in order, none of
   * which reads back as a conflict.
   */
  lemma PayloadConflictsLayout(comparison: ComparisonReport)
    ensures var p := PayloadConflicts(comparison);
      && |p| == |comparison.conflicts| + |comparison.qbOnly|
      && (forall i :: 0 <= i < |comparison.conflicts| ==> ConflictFromDict(p[i]) == Some(comparison.conflicts[i]))
      && (forall j :: 0 <= j < |comparison.qbOnly| ==>
            p[|comparison.conflicts| + j] == MissingInExcelConflict(comparison.qbOnly[j]))
      && (forall j :: |comparison.conflicts| <= j < |p| ==> ConflictFromDict(p[j]).None?)
  {
    var p := PayloadConflicts(comparison);
    var n := |comparison.conflicts|;
    forall j | n <= j < |p|
      ensures ConflictFromDict(p[j]).None?
    {
      assert p[j] == MissingEntries(comparison.qbOnly)[j - n];
    }
  }

  /** The payload of a run whose three steps all succeeded. */
  function SuccessPayload(generatedAt: string, added: seq<Account>, comparison: ComparisonReport, same: nat): (p: Payload)
    ensures p.status == "success" && p.error.None?
  {
    InitialPayload(generatedAt).(addedChartOfAccounts := AccountEntries(added),
                                 conflicts := PayloadConflicts(comparison),
                                 sameAccounts := same)
  }

  /** The payload once both sources loaded: the batch add decides between error and success. */
  function AfterComparison(generatedAt: string, comparison: ComparisonReport, added: Result<seq<Account>>,
                           same: nat): Payload
  {
    match added
    case Failure(message) => ErrorPayload(generatedAt, message)
    case Success(accounts) => SuccessPayload(generatedAt, accounts, comparison, same)
  }

  /**
   * One synchronisation run. Loading the workbook, fetching from QuickBooks and
   * the batch add are given as results; the first failure in that order marks
   * the payload as an error carrying its message and leaves the lists empty.
   * Otherwise the payload lists what the batch add returned, the comparison's
   * conflicts followed by the QuickBooks-only entries, and the identical
   * records.
   */
  method RunChartOfAccounts(outputPath: Option<string>, generatedAt: string, excelLoad: Result<seq<Account>>,
                            qbFetch: Result<seq<Account>>, addBatch: seq<Account> -> Result<seq<Account>>)
    returns (reportPath: string, payload: Payload)
    ensures reportPath == ReportPath(outputPath)
    ensures excelLoad.Failure? ==> payload == ErrorPayload(generatedAt, excelLoad.error)
    ensures excelLoad.Success? && qbFetch.Failure? ==> payload == ErrorPayload(generatedAt, qbFetch.error)
    ensures excelLoad.Success? && qbFetch.Success? ==>
      exists r :: IsComparisonOf(r, excelLoad.value, qbFetch.value) &&
        payload == AfterComparison(generatedAt, r, addBatch(AddedChartOfAccounts(excelLoad.value, qbFetch.value)),
                                   |PerfectIds(excelLoad.value, qbFetch.value)|)
    ensures payload.generatedAt == generatedAt
    ensures payload.status == "success" <==>
      excelLoad.Success? && qbFetch.Success? &&
      addBatch(AddedChartOfAccounts(excelLoad.value, qbFetch.value)).Success?
  {
    reportPath := ReportPath(outputPath);
    payload := InitialPayload(generatedAt);
    if excelLoad.Failure? {
      payload := payload.(status := "error");
      payload := payload.(error := Some(excelLoad.error));
    } else if qbFetch.Failure? {
      payload := payload.(status := "error");
      payload := payload.(error := Some(qbFetch.error));
    } else {
      var excelTerms := excelLoad.value;
      var qbTerms := qbFetch.value;
      var comparison := CompareAccountTypes(excelTerms, qbTerms);
      var addedTerms := addBatch(comparison.addedChartOfAccounts);
      if addedTerms.Failure? {
        payload := payload.(status := "error");
        payload := payload.(error := Some(addedTerms.error));
        assert payload == ErrorPayload(generatedAt, addedTerms.error);
      } else {
        var conflicts: seq<map<string, Option<string>>> := [];
        conflicts := conflicts + ConflictEntries(comparison.conflicts);
        conflicts := conflicts + MissingEntries(comparison.qbOnly);
        assert conflicts == PayloadConflicts(comparison) by {
          assert [] + ConflictEntries(comparison.conflicts) == ConflictEntries(comparison.conflicts);
        }
        payload := payload.(addedChartOfAccounts := AccountEntries(addedTerms.value));
        payload := payload.(conflicts := conflicts);
        var same := CountMatchingTerms(excelTerms, qbTerms);
        payload := payload.(sameAccounts := same);
        assert payload == SuccessPayload(generatedAt, addedTerms.value, comparison, same);
      }
      assert comparison.addedChartOfAccounts == AddedChartOfAccounts(excelTerms, qbTerms);
      assert payload == AfterComparison(generatedAt, comparison, addBatch(AddedChartOfAccounts(excelTerms, qbTerms)),
                                        |PerfectIds(excelTerms, qbTerms)|);
    }
  }

  /**
   * A failed run's payload has empty lists and a zero count, and a successful
   * one has no error; the status says which.
   */
  lemma PayloadStatusShape(generatedAt: string, comparison: ComparisonReport, added: Result<seq<Account>>, same: nat)
    ensures var p := AfterComparison(generatedAt, comparison, added, same);
      && (p.status == "success" <==> p.error.None?)
      && (p.status == "error" ==> p.addedChartOfAccounts == [] && p.conflicts == [] && p.sameAccounts == 0)
      && (added.Success? ==> |p.addedChartOfAccounts| == |added.value|)
  {
  }

  /**
   * The added-accounts list is what the batch add returned, not the
   * comparison's Excel-only list: each entry reads back as the returned
   * account at that position.
   */
  lemma AddedListIsBatchResult(generatedAt: string, comparison: ComparisonReport, accounts: seq<Account>, same: nat)
    ensures var p := AfterComparison(generatedAt, comparison, Success(accounts), same);
      && |p.addedChartOfAccounts| == |accounts|
      && forall i :: 0 <= i < |accounts| ==> AccountFromDict(p.addedChartOfAccounts[i]) == Some(accounts[i])
  {
  }

  /**
   * A QuickBooks-only account against an empty workbook: the comparison has no
   * conflict of its own, but the report's list holds exactly one entry, the
   * synthetic `missing_in_excel` one for that account.
   */
  lemma QbOnlyAccountGivesOneReportConflict(r: ComparisonReport, a: Account)
    requires IsComparisonOf(r, [], [a])
    ensures r.conflicts == []
    ensures PayloadConflicts(r) == [MissingInExcelConflict(a)]
  {
    assert KeysOf([], ById) == {};
    assert SharedIds([], [a]) == {};
    assert r.conflicts == [] || r.conflicts[0].id in ConflictIds(r.conflicts);
    OneSidedExactly([a], []);
    assert Entries([a]) == [a] by { EntriesOfDistinct([a]); }
    assert r.qbOnly == [a];
  }
}
