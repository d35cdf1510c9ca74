/**
 * The comparison as its body actually runs it: besides matching by id, it
 * matches accounts by number and by name, raises an `only_in_excel`
 * conflict for every Excel-only id, and drops from the one-sided lists
 * every account whose number or name a secondary match touched. It is kept
 * apart from the id-only reconciler, which it is related to below.
 */
module CompareExtension {
  import opened Wrappers
  import opened Models
  import opened Compare

  /**
   * A conflict as the secondary passes build it: the Excel id and type and
   * both sides' name and number; the QuickBooks type is not carried.
   */
  function PairConflict(e: Account, q: Account, reason: Reason): (c: Conflict)
    ensures c.id == e.id && c.excelType == e.accountType && c.reason == reason
    ensures c.excelName == Some(e.name) && c.qbName == Some(q.name)
    ensures c.excelNumber == Some(e.number) && c.qbNumber == Some(q.number)
    ensures c.qbType.None?
  {
    Conflict(e.id, e.accountType, None, Some(e.name), Some(q.name), Some(e.number), Some(q.number), reason)
  }

  /** Same id, some field differs: `name_mismatch` when number and type agree, else `id_conflict`. */
  function IdPassConflict(e: Account, q: Account): (c: Conflict)
    ensures c.id == e.id
    ensures c.reason == NameMismatch || c.reason == IdConflict
    ensures c.reason == NameMismatch <==> e.number == q.number && e.accountType == q.accountType
  {
    if e.number == q.number && e.accountType == q.accountType then PairConflict(e, q, NameMismatch)
    else PairConflict(e, q, IdConflict)
  }

  /** The conflict raised for an Excel account whose id QuickBooks lacks. */
  function OnlyInExcelConflict(e: Account): (c: Conflict)
    ensures c.id == e.id && c.excelType == e.accountType && c.reason == OnlyInExcel
    ensures c.excelName == Some(e.name) && c.excelNumber == Some(e.number)
    ensures c.qbType.None? && c.qbName.None? && c.qbNumber.None?
  {
    Conflict(e.id, e.accountType, None, Some(e.name), None, Some(e.number), None, OnlyInExcel)
  }

  /** One `only_in_excel` conflict per account, in the accounts' order. */
  function OnlyInExcelConflicts(s: seq<Account>): (r: seq<Conflict>)
    ensures |r| == |s|
    ensures forall c :: c in r ==> c.reason == OnlyInExcel
    decreases |s|
  {
    if |s| == 0 then [] else OnlyInExcelConflicts(s[..|s| - 1]) + [OnlyInExcelConflict(s[|s| - 1])]
  }

  /** The i-th conflict is the `only_in_excel` conflict of the i-th account. */
  lemma {:induction false} OnlyInExcelConflictsAt(s: seq<Account>)
    ensures forall i :: 0 <= i < |s| ==> OnlyInExcelConflicts(s)[i] == OnlyInExcelConflict(s[i])
    decreases |s|
  {
    if |s| > 0 {
      var p := s[..|s| - 1];
      OnlyInExcelConflictsAt(p);
      assert forall i :: 0 <= i < |p| ==> s[i] == p[i];
    }
  }

  lemma OnlyInExcelConflictsSnoc(s: seq<Account>, a: Account)
    ensures OnlyInExcelConflicts(s + [a]) == OnlyInExcelConflicts(s) + [OnlyInExcelConflict(a)]
  {
    assert (s + [a])[..|s|] == s;
  }

  /** The keys two dictionaries share whose records have different ids. */
  function CrossIdKeys(excelBy: map<string, Account>, qbBy: map<string, Account>): (r: set<string>)
    ensures r <= excelBy.Keys * qbBy.Keys
    ensures forall k :: k in excelBy && k in qbBy && excelBy[k].id != qbBy[k].id ==> k in r
  {
    set k | k in excelBy.Keys * qbBy.Keys && excelBy[k].id != qbBy[k].id
  }

  /** The numbers (or names) both sides carry whose retained records have different ids. */
  function ConflictedKeys(excel: seq<Account>, qb: seq<Account>, key: Key): set<string>
  {
    CrossIdKeys(IndexBy(excel, key), IndexBy(qb, key))
  }

  /**
   * What the id pass has built once the ids in `seen` are done: one id-pass
   * conflict for each mismatching one of them, and those ids recorded.
   */
  ghost predicate IdPassInvariant(excel: seq<Account>, qb: seq<Account>, pending: set<string>, seen: set<string>,
                                  conflicts: seq<Conflict>, conflictedIds: set<string>)
  {
    && pending + seen == SharedIds(excel, qb)
    && pending !! seen
    && conflictedIds == MismatchIds(excel, qb) * seen
    && (forall c :: c in conflicts ==>
        c.id in MismatchIds(excel, qb) && c == IdPassConflict(IndexBy(excel, ById)[c.id], IndexBy(qb, ById)[c.id]))
    && ConflictIds(conflicts) == conflictedIds
    && DistinctConflictIds(conflicts)
  }

  /** One iteration of the id pass keeps its invariant. */
  lemma IdPassStep(excel: seq<Account>, qb: seq<Account>, pending: set<string>, seen: set<string>,
                   conflicts: seq<Conflict>, conflictedIds: set<string>, id: string)
    requires IdPassInvariant(excel, qb, pending, seen, conflicts, conflictedIds)
    requires id in pending
    ensures id in IndexBy(excel, ById) && id in IndexBy(qb, ById)
    ensures var e, q := IndexBy(excel, ById)[id], IndexBy(qb, ById)[id];
      && (!SameData(e, q) ==>
          IdPassInvariant(excel, qb, pending - {id}, seen + {id}, conflicts + [IdPassConflict(e, q)],
                          conflictedIds + {id}))
      && (SameData(e, q) ==> IdPassInvariant(excel, qb, pending - {id}, seen + {id}, conflicts, conflictedIds))
  {
    var e, q := IndexBy(excel, ById)[id], IndexBy(qb, ById)[id];
    var c := IdPassConflict(e, q);
    assert c.id == id;
    ConflictIdsSnoc(conflicts, c);
    var t := conflicts + [c];
    forall i, j | 0 <= i < j < |t| ensures t[i].id != t[j].id {
      if j < |conflicts| {
        assert t[i] == conflicts[i] && t[j] == conflicts[j];
      } else {
        assert t[i] in conflicts;
      }
    }
  }

  /** Loop over the shared ids: one conflict per mismatching id, recording the id. */
  method IdPass(excel: seq<Account>, qb: seq<Account>) returns (conflicts: seq<Conflict>, conflictedIds: set<string>)
    ensures conflictedIds == MismatchIds(excel, qb)
    ensures forall c :: c in conflicts ==>
      c.id in MismatchIds(excel, qb) && c == IdPassConflict(IndexBy(excel, ById)[c.id], IndexBy(qb, ById)[c.id])
    ensures ConflictIds(conflicts) == MismatchIds(excel, qb)
    ensures DistinctConflictIds(conflicts)
  {
    var excelDict := IndexBy(excel, ById);
    var qbDict := IndexBy(qb, ById);
    conflicts, conflictedIds := [], {};
    var pending := excelDict.Keys * qbDict.Keys;
    ghost var seen: set<string> := {};
    while pending != {}
      invariant IdPassInvariant(excel, qb, pending, seen, conflicts, conflictedIds)
      decreases pending
    {
      var accId :| accId in pending;
      IdPassStep(excel, qb, pending, seen, conflicts, conflictedIds, accId);
      var excelTerm := excelDict[accId];
      var qbTerm := qbDict[accId];
      if !SameData(excelTerm, qbTerm) {
        conflicts := conflicts + [IdPassConflict(excelTerm, qbTerm)];
        conflictedIds := conflictedIds + {accId};
      }
      pending := pending - {accId};
      seen := seen + {accId};
    }
  }

  /**
   * What the secondary pass has built once the keys outside `pending` are
   * done: `keys` lists the conflicted keys in the order they were met, and
   * the i-th conflict pairs the two records at the i-th of them.
   */
  ghost predicate KeyPassInvariant(excelBy: map<string, Account>, qbBy: map<string, Account>, reason: Reason,
                                   pending: set<string>, conflicts: seq<Conflict>, conflictedKeys: set<string>,
                                   keys: seq<string>)
  {
    && pending <= excelBy.Keys * qbBy.Keys
    && conflictedKeys == CrossIdKeys(excelBy, qbBy) - pending
    && conflictedKeys == ElementsOf(keys)
    && Distinct(keys)
    && |conflicts| == |keys|
    && (forall i :: 0 <= i < |keys| ==> keys[i] in excelBy && keys[i] in qbBy)
    && (forall i :: 0 <= i < |keys| ==> conflicts[i] == PairConflict(excelBy[keys[i]], qbBy[keys[i]], reason))
  }

  /** One iteration of the secondary pass keeps its invariant. */
  lemma KeyPassStep(excelBy: map<string, Account>, qbBy: map<string, Account>, reason: Reason,
                    pending: set<string>, conflicts: seq<Conflict>, conflictedKeys: set<string>,
                    keys: seq<string>, k: string)
    requires KeyPassInvariant(excelBy, qbBy, reason, pending, conflicts, conflictedKeys, keys)
    requires k in pending
    ensures excelBy[k].id != qbBy[k].id ==>
      KeyPassInvariant(excelBy, qbBy, reason, pending - {k}, conflicts + [PairConflict(excelBy[k], qbBy[k], reason)],
                       conflictedKeys + {k}, keys + [k])
    ensures excelBy[k].id == qbBy[k].id ==>
      KeyPassInvariant(excelBy, qbBy, reason, pending - {k}, conflicts, conflictedKeys, keys)
  {
    ElementsOfSnoc(keys, k);
    assert k !in ElementsOf(keys);
    var keys', conflicts' := keys + [k], conflicts + [PairConflict(excelBy[k], qbBy[k], reason)];
    assert forall i :: 0 <= i < |keys| ==> keys'[i] == keys[i] && conflicts'[i] == conflicts[i];
  }

  /** Once no key is pending, the invariant gives what the secondary pass promises. */
  lemma KeyPassDone(excelBy: map<string, Account>, qbBy: map<string, Account>, reason: Reason,
                    conflicts: seq<Conflict>, conflictedKeys: set<string>, keys: seq<string>)
    requires KeyPassInvariant(excelBy, qbBy, reason, {}, conflicts, conflictedKeys, keys)
    ensures conflictedKeys == CrossIdKeys(excelBy, qbBy)
    ensures |conflicts| == |conflictedKeys|
    ensures forall c :: c in conflicts ==>
      exists k :: k in conflictedKeys && c == PairConflict(excelBy[k], qbBy[k], reason)
    ensures forall k :: k in conflictedKeys ==> PairConflict(excelBy[k], qbBy[k], reason) in conflicts
  {
    DistinctElementsCard(keys);
    forall c | c in conflicts
      ensures exists k :: k in conflictedKeys && c == PairConflict(excelBy[k], qbBy[k], reason)
    {
      var i :| 0 <= i < |conflicts| && conflicts[i] == c;
      assert keys[i] in conflictedKeys;
    }
    forall k | k in conflictedKeys
      ensures PairConflict(excelBy[k], qbBy[k], reason) in conflicts
    {
      var i :| 0 <= i < |keys| && keys[i] == k;
      assert conflicts[i] == PairConflict(excelBy[k], qbBy[k], reason);
    }
  }

  /**
   * Loop over the numbers (or names) two dictionaries share: a conflict with
   * the given reason for each one whose records have different ids,
   * recording the key.
   */
  method KeyPass(excelBy: map<string, Account>, qbBy: map<string, Account>, reason: Reason)
    returns (conflicts: seq<Conflict>, conflictedKeys: set<string>)
    ensures conflictedKeys == CrossIdKeys(excelBy, qbBy)
    ensures |conflicts| == |conflictedKeys|
    ensures forall c :: c in conflicts ==>
      exists k :: k in conflictedKeys && c == PairConflict(excelBy[k], qbBy[k], reason)
    ensures forall k :: k in conflictedKeys ==> PairConflict(excelBy[k], qbBy[k], reason) in conflicts
  {
    conflicts, conflictedKeys := [], {};
    var pending := excelBy.Keys * qbBy.Keys;
    ghost var keys: seq<string> := [];
    while pending != {}
      invariant KeyPassInvariant(excelBy, qbBy, reason, pending, conflicts, conflictedKeys, keys)
      decreases pending
    {
      var k :| k in pending;
      KeyPassStep(excelBy, qbBy, reason, pending, conflicts, conflictedKeys, keys, k);
      var excelTerm := excelBy[k];
      var qbTerm := qbBy[k];
      if excelTerm.id != qbTerm.id {
        conflicts := conflicts + [PairConflict(excelTerm, qbTerm, reason)];
        conflictedKeys := conflictedKeys + {k};
        keys := keys + [k];
      }
      pending := pending - {k};
    }
    KeyPassDone(excelBy, qbBy, reason, conflicts, conflictedKeys, keys);
  }

  /**
   * Each conflict of a secondary pass pairs an Excel and a QuickBooks account
   * that carry the same key and different ids.
   */
  lemma KeyPassPairs(excel: seq<Account>, qb: seq<Account>, key: Key, reason: Reason, conflicts: seq<Conflict>,
                     conflictedKeys: set<string>)
    requires conflictedKeys == CrossIdKeys(IndexBy(excel, key), IndexBy(qb, key))
    requires forall c :: c in conflicts ==>
      exists k :: k in conflictedKeys && c == PairConflict(IndexBy(excel, key)[k], IndexBy(qb, key)[k], reason)
    ensures forall c :: c in conflicts ==>
      exists e, q ::
        e in excel && q in qb && KeyOf(e, key) == KeyOf(q, key) && e.id != q.id && c == PairConflict(e, q, reason)
  {
    var excelBy, qbBy := IndexBy(excel, key), IndexBy(qb, key);
    forall c | c in conflicts
      ensures exists e, q ::
        e in excel && q in qb && KeyOf(e, key) == KeyOf(q, key) && e.id != q.id && c == PairConflict(e, q, reason)
    {
      var k :| k in conflictedKeys && c == PairConflict(excelBy[k], qbBy[k], reason);
      assert excelBy[k] in excel && qbBy[k] in qb;
    }
  }

  /** Loop over the Excel id dictionary: an `only_in_excel` conflict per id QuickBooks lacks, in order. */
  method OnlyInExcelPass(excel: seq<Account>, qb: seq<Account>) returns (conflicts: seq<Conflict>)
    ensures conflicts == OnlyInExcelConflicts(AddedChartOfAccounts(excel, qb))
  {
    var entries := Entries(excel);
    var qbIds := IndexBy(qb, ById).Keys;
    conflicts := [];
    for i := 0 to |entries|
      invariant conflicts == OnlyInExcelConflicts(OnlyIn(entries[..i], qbIds))
    {
      ghost var before := OnlyIn(entries[..i], qbIds);
      OnlyInPrefix(entries, qbIds, i);
      if entries[i].id !in qbIds {
        OnlyInExcelConflictsSnoc(before, entries[i]);
        conflicts := conflicts + [OnlyInExcelConflict(entries[i])];
      }
    }
    assert entries[..|entries|] == entries;
  }

  /**
   * The extension's one-sided comprehension: entries whose id the other side
   * lacks, whose id no conflict recorded, and whose number and name no
   * secondary pass touched.
   */
  function ExtensionOneSided(entries: seq<Account>, other: set<string>, ids: set<string>,
                             numbers: set<string>, names: set<string>): (r: seq<Account>)
    ensures forall a :: a in r ==>
      a in entries && a.id !in other && a.id !in ids && a.number !in numbers && a.name !in names
    ensures forall a :: a in entries && a.id !in other && a.id !in ids && a.number !in numbers && a.name !in names ==>
      a in r
    decreases |entries|
  {
    if |entries| == 0 then []
    else
      var last := entries[|entries| - 1];
      assert entries == entries[..|entries| - 1] + [last];
      ExtensionOneSided(entries[..|entries| - 1], other, ids, numbers, names) +
      (if last.id !in other && last.id !in ids && last.number !in numbers && last.name !in names
       then [last] else [])
  }

  /** The accounts of `s` whose number and name are both untouched, in order. */
  function Untouched(s: seq<Account>, numbers: set<string>, names: set<string>): (r: seq<Account>)
    ensures forall a :: a in r ==> a in s && a.number !in numbers && a.name !in names
    ensures forall a :: a in s && a.number !in numbers && a.name !in names ==> a in r
    decreases |s|
  {
    if |s| == 0 then []
    else
      var last := s[|s| - 1];
      assert s == s[..|s| - 1] + [last];
      Untouched(s[..|s| - 1], numbers, names) +
      (if last.number !in numbers && last.name !in names then [last] else [])
  }

  /** The positions of the accounts `Untouched` keeps: exactly those with untouched number and name. */
  lemma {:induction false} UntouchedPositions(s: seq<Account>, numbers: set<string>, names: set<string>)
    returns (pos: seq<int>)
    ensures SubsequenceAt(Untouched(s, numbers, names), s, pos)
    ensures forall x :: 0 <= x < |s| && s[x].number !in numbers && s[x].name !in names ==> x in pos
    decreases |s|
  {
    if |s| == 0 {
      pos := [];
    } else {
      var p := s[..|s| - 1];
      var last := s[|s| - 1];
      assert s == p + [last];
      var pp := UntouchedPositions(p, numbers, names);
      SubsequenceSnoc(Untouched(p, numbers, names), p, pp, last);
      pos := if last.number !in numbers && last.name !in names then pp + [|p|] else pp;
      forall x | 0 <= x < |s| && s[x].number !in numbers && s[x].name !in names
        ensures x in pos
      {
        if x < |p| {
          assert p[x] == s[x];
          var k :| 0 <= k < |pp| && pp[k] == x;
          assert pos[k] == x;
        } else {
          assert pos[|pos| - 1] == x;
        }
      }
    }
  }

  /**
   * `Untouched` keeps the order of its input: accounts it keeps come in the
   * order they had, and any two untouched accounts are kept in that order.
   */
  lemma UntouchedKeepsOrder(s: seq<Account>, numbers: set<string>, names: set<string>)
    ensures var r := Untouched(s, numbers, names);
      forall i, j :: 0 <= i < j < |r| ==> Precedes(s, r[i], r[j])
    ensures var r := Untouched(s, numbers, names);
      forall x, y ::
        0 <= x < y < |s| && s[x].number !in numbers && s[x].name !in names &&
        s[y].number !in numbers && s[y].name !in names
        ==> Precedes(r, s[x], s[y])
  {
    var pos := UntouchedPositions(s, numbers, names);
    SubsequenceOrder(Untouched(s, numbers, names), s, pos);
  }

  /**
   * Excluding conflicted ids is redundant: they are shared ids, which the
   * other side carries. So the extension's list is the id-only list with the
   * touched numbers and names removed.
   */
  lemma {:induction false} ExtensionOneSidedIsUntouchedBase(entries: seq<Account>, other: set<string>,
                                                            ids: set<string>, numbers: set<string>, names: set<string>)
    requires ids <= other
    ensures ExtensionOneSided(entries, other, ids, numbers, names) == Untouched(OnlyIn(entries, other), numbers, names)
    decreases |entries|
  {
    if |entries| > 0 {
      var p := entries[..|entries| - 1];
      ExtensionOneSidedIsUntouchedBase(p, other, ids, numbers, names);
      var last := entries[|entries| - 1];
      if last.id !in other {
        var b := OnlyIn(p, other) + [last];
        assert b[..|b| - 1] == OnlyIn(p, other);
      }
    }
  }

  /** With nothing touched, the filter keeps everything. */
  lemma {:induction false} UntouchedNothing(s: seq<Account>)
    ensures Untouched(s, {}, {}) == s
    decreases |s|
  {
    if |s| > 0 {
      UntouchedNothing(s[..|s| - 1]);
      assert s == s[..|s| - 1] + [s[|s| - 1]];
    }
  }

  /**
   * The four passes' reasons are disjoint, so a conflict of the combined list
   * with a given reason comes from the pass that raises it.
   */
  lemma ConflictsByReason(ids: seq<Conflict>, numbers: seq<Conflict>, names: seq<Conflict>, only: seq<Conflict>)
    requires forall c :: c in ids ==> c.reason == NameMismatch || c.reason == IdConflict
    requires forall c :: c in numbers ==> c.reason == NumberConflict
    requires forall c :: c in names ==> c.reason == NameConflict
    requires forall c :: c in only ==> c.reason == OnlyInExcel
    ensures forall c :: c in ids + numbers + names + only && (c.reason == NameMismatch || c.reason == IdConflict) ==> c in ids
    ensures forall c :: c in ids + numbers + names + only && c.reason == NumberConflict ==> c in numbers
    ensures forall c :: c in ids + numbers + names + only && c.reason == NameConflict ==> c in names
    ensures forall c :: c in ids + numbers + names + only && c.reason == OnlyInExcel ==> c in only
  {
  }

  /** The extension's one-sided lists, with the id pass's ids, are the id-only lists filtered by `Untouched`. */
  lemma SecondaryOneSided(excel: seq<Account>, qb: seq<Account>, ids: set<string>, numbers: set<string>, names: set<string>)
    requires ids == MismatchIds(excel, qb)
    ensures ExtensionOneSided(Entries(excel), IndexBy(qb, ById).Keys, ids, numbers, names) ==
      Untouched(AddedChartOfAccounts(excel, qb), numbers, names)
    ensures ExtensionOneSided(Entries(qb), IndexBy(excel, ById).Keys, ids, numbers, names) ==
      Untouched(QbOnly(excel, qb), numbers, names)
  {
    assert ids <= SharedIds(excel, qb);
    ExtensionOneSidedIsUntouchedBase(Entries(excel), IndexBy(qb, ById).Keys, ids, numbers, names);
    ExtensionOneSidedIsUntouchedBase(Entries(qb), IndexBy(excel, ById).Keys, ids, numbers, names);
  }

  /** What the combined conflict list says, from what each pass guarantees. */
  lemma SecondaryConflicts(excel: seq<Account>, qb: seq<Account>, ids: seq<Conflict>, numbers: seq<Conflict>,
                           names: seq<Conflict>, only: seq<Conflict>)
    requires forall c :: c in ids ==>
      c.id in MismatchIds(excel, qb) && c == IdPassConflict(IndexBy(excel, ById)[c.id], IndexBy(qb, ById)[c.id])
    requires ConflictIds(ids) == MismatchIds(excel, qb)
    requires forall c :: c in numbers ==>
      exists e, q :: e in excel && q in qb && KeyOf(e, ByNumber) == KeyOf(q, ByNumber) && e.id != q.id && c == PairConflict(e, q, NumberConflict)
    requires forall c :: c in names ==>
      exists e, q :: e in excel && q in qb && KeyOf(e, ByName) == KeyOf(q, ByName) && e.id != q.id && c == PairConflict(e, q, NameConflict)
    requires only == OnlyInExcelConflicts(AddedChartOfAccounts(excel, qb))
    ensures forall c :: c in ids + numbers + names + only && (c.reason == NameMismatch || c.reason == IdConflict) ==>
      c.id in MismatchIds(excel, qb) && c == IdPassConflict(IndexBy(excel, ById)[c.id], IndexBy(qb, ById)[c.id])
    ensures forall c :: c in ids + numbers + names + only && c.reason == NumberConflict ==>
      exists e, q :: e in excel && q in qb && KeyOf(e, ByNumber) == KeyOf(q, ByNumber) && e.id != q.id && c == PairConflict(e, q, NumberConflict)
    ensures forall c :: c in ids + numbers + names + only && c.reason == NameConflict ==>
      exists e, q :: e in excel && q in qb && KeyOf(e, ByName) == KeyOf(q, ByName) && e.id != q.id && c == PairConflict(e, q, NameConflict)
    ensures forall c :: c in ids + numbers + names + only && c.reason == OnlyInExcel ==>
      c in OnlyInExcelConflicts(AddedChartOfAccounts(excel, qb))
    ensures forall id :: id in MismatchIds(excel, qb) ==>
      exists c :: c in ids + numbers + names + only && c.id == id && (c.reason == NameMismatch || c.reason == IdConflict)
  {
    forall c | c in ids
      ensures c.reason == NameMismatch || c.reason == IdConflict
    {
    }
    forall c | c in numbers
      ensures c.reason == NumberConflict
    {
      var e, q :| e in excel && q in qb && KeyOf(e, ByNumber) == KeyOf(q, ByNumber) && e.id != q.id && c == PairConflict(e, q, NumberConflict);
    }
    forall c | c in names
      ensures c.reason == NameConflict
    {
      var e, q :| e in excel && q in qb && KeyOf(e, ByName) == KeyOf(q, ByName) && e.id != q.id && c == PairConflict(e, q, NameConflict);
    }
    ConflictsByReason(ids, numbers, names, only);
    forall id | id in MismatchIds(excel, qb)
      ensures exists c :: c in ids + numbers + names + only && c.id == id && (c.reason == NameMismatch || c.reason == IdConflict)
    {
      assert id in ConflictIds(ids);
      var c :| c in ids && c.id == id;
      assert c in ids + numbers + names + only;
    }
  }

  /**
   * Nothing a pass raises is lost in the combined list: every conflicted
   * number and name has its pair conflict, and every Excel-only account its
   * `only_in_excel` conflict.
   */
  lemma SecondaryComplete(excel: seq<Account>, qb: seq<Account>, ids: seq<Conflict>, numbers: seq<Conflict>,
                          names: seq<Conflict>, only: seq<Conflict>)
    requires forall k :: k in ConflictedKeys(excel, qb, ByNumber) ==>
      PairConflict(IndexBy(excel, ByNumber)[k], IndexBy(qb, ByNumber)[k], NumberConflict) in numbers
    requires forall k :: k in ConflictedKeys(excel, qb, ByName) ==>
      PairConflict(IndexBy(excel, ByName)[k], IndexBy(qb, ByName)[k], NameConflict) in names
    requires only == OnlyInExcelConflicts(AddedChartOfAccounts(excel, qb))
    ensures forall k :: k in ConflictedKeys(excel, qb, ByNumber) ==>
      PairConflict(IndexBy(excel, ByNumber)[k], IndexBy(qb, ByNumber)[k], NumberConflict) in ids + numbers + names + only
    ensures forall k :: k in ConflictedKeys(excel, qb, ByName) ==>
      PairConflict(IndexBy(excel, ByName)[k], IndexBy(qb, ByName)[k], NameConflict) in ids + numbers + names + only
    ensures forall a :: a in AddedChartOfAccounts(excel, qb) ==> OnlyInExcelConflict(a) in ids + numbers + names + only
  {
    var added := AddedChartOfAccounts(excel, qb);
    OnlyInExcelConflictsAt(added);
    forall a | a in added
      ensures OnlyInExcelConflict(a) in ids + numbers + names + only
    {
      var i :| 0 <= i < |added| && added[i] == a;
      assert only[i] == OnlyInExcelConflict(a);
    }
  }

  /**
   * `conflicts` is a possible conflict list of the comparison with the
   * secondary passes: one conflict per mismatching shared id, per conflicted
   * number, per conflicted name and per Excel-only account, and each
   * conflict of one of the shapes those passes raise. The order follows the
   * unordered sets the passes iterate.
   */
  ghost predicate IsSecondaryConflictList(conflicts: seq<Conflict>, excel: seq<Account>, qb: seq<Account>)
  {
    && |conflicts| == |MismatchIds(excel, qb)| + |ConflictedKeys(excel, qb, ByNumber)| +
        |ConflictedKeys(excel, qb, ByName)| + |AddedChartOfAccounts(excel, qb)|
    && (forall c :: c in conflicts && (c.reason == NameMismatch || c.reason == IdConflict) ==>
        c.id in MismatchIds(excel, qb) && c == IdPassConflict(IndexBy(excel, ById)[c.id], IndexBy(qb, ById)[c.id]))
    && (forall c :: c in conflicts && c.reason == NumberConflict ==>
        exists e, q :: e in excel && q in qb && KeyOf(e, ByNumber) == KeyOf(q, ByNumber) && e.id != q.id && c == PairConflict(e, q, NumberConflict))
    && (forall c :: c in conflicts && c.reason == NameConflict ==>
        exists e, q :: e in excel && q in qb && KeyOf(e, ByName) == KeyOf(q, ByName) && e.id != q.id && c == PairConflict(e, q, NameConflict))
    && (forall c :: c in conflicts && c.reason == OnlyInExcel ==>
        c in OnlyInExcelConflicts(AddedChartOfAccounts(excel, qb)))
    && (forall id :: id in MismatchIds(excel, qb) ==>
        exists c :: c in conflicts && c.id == id && (c.reason == NameMismatch || c.reason == IdConflict))
    && (forall k :: k in ConflictedKeys(excel, qb, ByNumber) ==>
        PairConflict(IndexBy(excel, ByNumber)[k], IndexBy(qb, ByNumber)[k], NumberConflict) in conflicts)
    && (forall k :: k in ConflictedKeys(excel, qb, ByName) ==>
        PairConflict(IndexBy(excel, ByName)[k], IndexBy(qb, ByName)[k], NameConflict) in conflicts)
    && (forall a :: a in AddedChartOfAccounts(excel, qb) ==> OnlyInExcelConflict(a) in conflicts)
  }

  /**
   * The four conflict passes in the body's order: by id, by number, by
   * name, and the Excel-only ids. The combined list has one conflict per
   * mismatching shared id, per conflicted number, per conflicted name and
   * per Excel-only account, each of the shape its pass promises.
   */
  method SecondaryPasses(excel: seq<Account>, qb: seq<Account>)
    returns (conflicts: seq<Conflict>, conflictedIds: set<string>, conflictedNumbers: set<string>,
             conflictedNames: set<string>)
    ensures conflictedIds == MismatchIds(excel, qb)
    ensures conflictedNumbers == ConflictedKeys(excel, qb, ByNumber)
    ensures conflictedNames == ConflictedKeys(excel, qb, ByName)
    ensures IsSecondaryConflictList(conflicts, excel, qb)
  {
    var idConflicts, numberConflicts, nameConflicts;
    idConflicts, conflictedIds := IdPass(excel, qb);
    numberConflicts, conflictedNumbers := KeyPass(IndexBy(excel, ByNumber), IndexBy(qb, ByNumber), NumberConflict);
    nameConflicts, conflictedNames := KeyPass(IndexBy(excel, ByName), IndexBy(qb, ByName), NameConflict);
    var onlyConflicts := OnlyInExcelPass(excel, qb);
    DistinctConflictIdsCard(idConflicts);
    KeyPassPairs(excel, qb, ByNumber, NumberConflict, numberConflicts, conflictedNumbers);
    KeyPassPairs(excel, qb, ByName, NameConflict, nameConflicts, conflictedNames);
    SecondaryConflicts(excel, qb, idConflicts, numberConflicts, nameConflicts, onlyConflicts);
    SecondaryComplete(excel, qb, idConflicts, numberConflicts, nameConflicts, onlyConflicts);
    conflicts := idConflicts + numberConflicts + nameConflicts + onlyConflicts;
  }

  /**
   * The comparison with the secondary passes. Its one-sided lists are the
   * id-only lists with every account whose number or name a secondary pass
   * touched removed, so each is contained in the id-only list; its conflicts
   * are those of the four passes.
   */
  method CompareWithSecondaryPasses(excel: seq<Account>, qb: seq<Account>) returns (report: ComparisonReport)
    ensures report.addedChartOfAccounts ==
      Untouched(AddedChartOfAccounts(excel, qb), ConflictedKeys(excel, qb, ByNumber), ConflictedKeys(excel, qb, ByName))
    ensures report.qbOnly ==
      Untouched(QbOnly(excel, qb), ConflictedKeys(excel, qb, ByNumber), ConflictedKeys(excel, qb, ByName))
    ensures forall a :: a in report.addedChartOfAccounts ==> a in AddedChartOfAccounts(excel, qb)
    ensures forall a :: a in report.qbOnly ==> a in QbOnly(excel, qb)
    ensures IsSecondaryConflictList(report.conflicts, excel, qb)
  {
    var conflicts, conflictedIds, conflictedNumbers, conflictedNames := SecondaryPasses(excel, qb);
    var excelIds, qbIds := IndexBy(excel, ById).Keys, IndexBy(qb, ById).Keys;
    var added := ExtensionOneSided(Entries(excel), qbIds, conflictedIds, conflictedNumbers, conflictedNames);
    var qbOnly := ExtensionOneSided(Entries(qb), excelIds, conflictedIds, conflictedNumbers, conflictedNames);
    SecondaryOneSided(excel, qb, conflictedIds, conflictedNumbers, conflictedNames);
    report := ComparisonReport(added, qbOnly, conflicts);
  }

  /**
   * When no number and no name is shared under different ids, the secondary
   * passes remove nothing: the extension's one-sided lists are those of the
   * id-only comparison.
   */
  lemma SecondaryMatchesBaseWithoutCrossIdKeys(excel: seq<Account>, qb: seq<Account>, r: ComparisonReport)
    requires IsComparisonOf(r, excel, qb)
    requires ConflictedKeys(excel, qb, ByNumber) == {} && ConflictedKeys(excel, qb, ByName) == {}
    ensures Untouched(AddedChartOfAccounts(excel, qb), ConflictedKeys(excel, qb, ByNumber), ConflictedKeys(excel, qb, ByName))
      == r.addedChartOfAccounts
    ensures Untouched(QbOnly(excel, qb), ConflictedKeys(excel, qb, ByNumber), ConflictedKeys(excel, qb, ByName))
      == r.qbOnly
  {
    UntouchedNothing(AddedChartOfAccounts(excel, qb));
    UntouchedNothing(QbOnly(excel, qb));
  }
}
