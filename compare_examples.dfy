/** The accounts of the reconciler's documented worked example. */
module CompareFixtures {
  import opened Wrappers
  import opened Models
  import opened Compare

  function DocExcel(): seq<Account>
  {
    [ Account("ASSET", "1000", "Asset", "1", Excel),
      Account("EXPENSE", "2000", "Expense", "2", Excel),
      Account("INCOME", "3000", "Income", "3", Excel) ]
  }

  function DocQb(): seq<Account>
  {
    [ Account("LIABILITY", "4000", "Liability", "4", QuickBooks),
      Account("EXPENSE", "2000", "Expenses", "2", QuickBooks),
      Account("INCOME", "3000", "Income", "3", QuickBooks) ]
  }

  lemma DocKeys()
    ensures KeysOf(DocExcel(), ById) == {"1", "2", "3"}
    ensures KeysOf(DocQb(), ById) == {"4", "2", "3"}
  {
    var ex, qb := DocExcel(), DocQb();
    assert KeyOf(ex[0], ById) == "1" && KeyOf(ex[1], ById) == "2" && KeyOf(ex[2], ById) == "3";
    assert KeyOf(qb[0], ById) == "4" && KeyOf(qb[1], ById) == "2" && KeyOf(qb[2], ById) == "3";
  }
}

/** The reconciler's documented worked example, checked against the contract. */
module CompareExamples {
  import opened Wrappers
  import opened Models
  import opened Compare
  import opened CompareFixtures

  /** Of three entries whose ids after the first the other side has, the filter keeps the first. */
  lemma OnlyInFirstOfThree(s: seq<Account>, other: set<string>)
    requires |s| == 3
    requires s[0].id !in other && s[1].id in other && s[2].id in other
    ensures OnlyIn(s, other) == [s[0]]
  {
    assert s[..0] == [];
    OnlyInPrefix(s, other, 0);
    OnlyInPrefix(s, other, 1);
    OnlyInPrefix(s, other, 2);
    assert s[..3] == s;
  }

  /** Three Excel accounts 1, 2, 3 against QuickBooks ids {4, 2, 3}: only the first is added. */
  lemma AddedOfThree(ex: seq<Account>, qb: seq<Account>)
    requires |ex| == 3 && DistinctIds(ex)
    requires ex[0].id == "1" && ex[1].id == "2" && ex[2].id == "3"
    requires KeysOf(qb, ById) == {"4", "2", "3"}
    ensures AddedChartOfAccounts(ex, qb) == [ex[0]]
  {
    EntriesOfDistinct(ex);
    OnlyInFirstOfThree(ex, KeysOf(qb, ById));
  }

  /** Three QuickBooks accounts 4, 2, 3 against Excel ids {1, 2, 3}: only the first is QuickBooks-only. */
  lemma QbOnlyOfThree(ex: seq<Account>, qb: seq<Account>)
    requires |qb| == 3 && DistinctIds(qb)
    requires qb[0].id == "4" && qb[1].id == "2" && qb[2].id == "3"
    requires KeysOf(ex, ById) == {"1", "2", "3"}
    ensures QbOnly(ex, qb) == [qb[0]]
  {
    EntriesOfDistinct(qb);
    OnlyInFirstOfThree(qb, KeysOf(ex, ById));
  }

  lemma DocAdded()
    ensures AddedChartOfAccounts(DocExcel(), DocQb()) == [Account("ASSET", "1000", "Asset", "1", Excel)]
  {
    DocKeys();
    AddedOfThree(DocExcel(), DocQb());
  }

  lemma DocQbOnly()
    ensures QbOnly(DocExcel(), DocQb()) == [Account("LIABILITY", "4000", "Liability", "4", QuickBooks)]
  {
    DocKeys();
    QbOnlyOfThree(DocExcel(), DocQb());
  }

  lemma DocConflicts(r: ComparisonReport)
    requires IsComparisonOf(r, DocExcel(), DocQb())
    ensures r.conflicts == [Conflict("2", "EXPENSE", Some("EXPENSE"), Some("Expense"), Some("Expenses"),
                                     Some("2000"), Some("2000"), DataMismatch)]
  {
    DocKeys();
    DocRetained();
    MismatchOnlyAtTwo(DocExcel(), DocQb());
    SingleMismatchConflict(r, DocExcel(), DocQb(), "2");
  }

  lemma DocRetained()
    ensures IndexBy(DocExcel(), ById)["2"] == DocExcel()[1]
    ensures IndexBy(DocExcel(), ById)["3"] == DocExcel()[2]
    ensures IndexBy(DocQb(), ById)["2"] == DocQb()[1]
    ensures IndexBy(DocQb(), ById)["3"] == DocQb()[2]
  {
    LastTwoRetained(DocExcel());
    LastTwoRetained(DocQb());
  }

  /** With three distinct ids, the dictionary keeps the second and third records under their ids. */
  lemma LastTwoRetained(s: seq<Account>)
    requires |s| == 3 && DistinctIds(s)
    ensures s[1].id in IndexBy(s, ById) && IndexBy(s, ById)[s[1].id] == s[1]
    ensures s[2].id in IndexBy(s, ById) && IndexBy(s, ById)[s[2].id] == s[2]
  {
    IndexLastWins(s, ById, 1);
    IndexLastWins(s, ById, 2);
  }

  /**
   * In the worked example INCOME/3 is a perfect match: both sides keep
   * identical records for it, and it is in none of the three lists.
   */
  lemma DocIncomeSilent(r: ComparisonReport)
    requires IsComparisonOf(r, DocExcel(), DocQb())
    ensures SameData(IndexBy(DocExcel(), ById)["3"], IndexBy(DocQb(), ById)["3"])
    ensures forall a :: a in r.addedChartOfAccounts ==> a.id != "3"
    ensures forall a :: a in r.qbOnly ==> a.id != "3"
    ensures forall c :: c in r.conflicts ==> c.id != "3"
  {
    DocKeys();
    DocRetained();
    assert "3" in SharedIds(DocExcel(), DocQb());
    PerfectMatchIsSilent(r, DocExcel(), DocQb(), "3");
  }

  /** With ids {1, 2, 3} against {4, 2, 3}, where id 2 differs and id 3 agrees, only id 2 mismatches. */
  lemma MismatchOnlyAtTwo(ex: seq<Account>, qb: seq<Account>)
    requires KeysOf(ex, ById) == {"1", "2", "3"}
    requires KeysOf(qb, ById) == {"4", "2", "3"}
    requires !SameData(IndexBy(ex, ById)["2"], IndexBy(qb, ById)["2"])
    requires SameData(IndexBy(ex, ById)["3"], IndexBy(qb, ById)["3"])
    ensures MismatchIds(ex, qb) == {"2"}
  {
    assert SharedIds(ex, qb) == {"2", "3"};
  }

  /** A report whose conflicts all carry one id and include it holds exactly one conflict. */
  lemma SingleConflictId(cs: seq<Conflict>, id: string)
    requires ConflictIds(cs) == {id}
    requires DistinctConflictIds(cs)
    ensures |cs| == 1
  {
    assert cs == [] || cs[0].id in ConflictIds(cs);
    assert |cs| <= 1 || cs[1].id in ConflictIds(cs);
  }

  /** When exactly one shared id mismatches, the conflicts are its one data-mismatch conflict. */
  lemma SingleMismatchConflict(r: ComparisonReport, ex: seq<Account>, qb: seq<Account>, id: string)
    requires IsComparisonOf(r, ex, qb)
    requires MismatchIds(ex, qb) == {id}
    ensures r.conflicts == [MismatchConflict(IndexBy(ex, ById)[id], IndexBy(qb, ById)[id])]
  {
    OnlyConflictOf(r.conflicts, ex, qb, id);
  }

  /** Mismatch conflicts with distinct ids, all carrying one id, are that id's single conflict. */
  lemma OnlyConflictOf(cs: seq<Conflict>, ex: seq<Account>, qb: seq<Account>, id: string)
    requires forall c :: c in cs ==> IsMismatchConflict(ex, qb, c)
    requires MismatchIds(ex, qb) == {id} && ConflictIds(cs) == {id}
    requires DistinctConflictIds(cs)
    ensures cs == [MismatchConflict(IndexBy(ex, ById)[id], IndexBy(qb, ById)[id])]
  {
    SingleConflictId(cs, id);
    assert cs[0] in cs;
    assert cs[0].id in ConflictIds(cs);
  }

  /**
   * The documented worked example: ASSET/1 is added, LIABILITY/4 is
   * QuickBooks-only, id 2 is one conflict ("Expense" against "Expenses"),
   * and INCOME/3 appears nowhere.
   */
  lemma DocstringExample(r: ComparisonReport)
    requires IsComparisonOf(r, DocExcel(), DocQb())
    ensures r.addedChartOfAccounts == [Account("ASSET", "1000", "Asset", "1", Excel)]
    ensures r.qbOnly == [Account("LIABILITY", "4000", "Liability", "4", QuickBooks)]
    ensures r.conflicts == [Conflict("2", "EXPENSE", Some("EXPENSE"), Some("Expense"), Some("Expenses"),
                                     Some("2000"), Some("2000"), DataMismatch)]
  {
    DocAdded();
    DocQbOnly();
    DocConflicts(r);
  }

  lemma SingletonFacts(a: Account)
    ensures KeysOf([a], ById) == {a.id}
    ensures IndexBy([a], ById) == map[a.id := a]
    ensures Entries([a]) == [a]
  {
    assert KeyOf([a][0], ById) == a.id;
    EntriesOfDistinct([a]);
  }

  lemma OneAccountLists(a: Account, b: Account)
    ensures AddedChartOfAccounts([a], [b]) == if a.id == b.id then [] else [a]
    ensures QbOnly([a], [b]) == if a.id == b.id then [] else [b]
  {
    SingletonFacts(a);
    SingletonFacts(b);
    OnlyInOne(a, {b.id});
    OnlyInOne(b, {a.id});
  }

  lemma OnlyInOne(a: Account, other: set<string>)
    ensures OnlyIn([a], other) == if a.id in other then [] else [a]
  {
    assert [a][..0] == [];
  }

  lemma OneAccountMismatchIds(a: Account, b: Account)
    ensures MismatchIds([a], [b]) == if a.id == b.id && !SameData(a, b) then {a.id} else {}
  {
    SingletonFacts(a);
    SingletonFacts(b);
  }

  lemma OneAccountConflicts(r: ComparisonReport, a: Account, b: Account)
    requires IsComparisonOf(r, [a], [b])
    ensures r.conflicts == if a.id == b.id && !SameData(a, b) then [MismatchConflict(a, b)] else []
  {
    OneAccountMismatchIds(a, b);
    SingletonFacts(a);
    SingletonFacts(b);
    if a.id == b.id && !SameData(a, b) {
      SingleMismatchConflict(r, [a], [b], a.id);
    } else {
      NoConflictIds(r.conflicts);
    }
  }

  /**
   * One account on each side, as in the unit tests: equal ids and equal
   * data give the empty report; equal ids and any differing field give one
   * data-mismatch conflict and nothing else; different ids (compared
   * exactly, so case matters) make each account one-sided.
   */
  lemma OneAccountEachSide(r: ComparisonReport, a: Account, b: Account)
    requires IsComparisonOf(r, [a], [b])
    ensures a.id == b.id && SameData(a, b) ==> r == EmptyReport()
    ensures a.id == b.id && !SameData(a, b) ==> r == ComparisonReport([], [], [MismatchConflict(a, b)])
    ensures a.id != b.id ==> r == ComparisonReport([a], [b], [])
  {
    OneAccountLists(a, b);
    OneAccountConflicts(r, a, b);
  }
}
