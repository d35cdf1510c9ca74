/**
 * Id-based reconciliation of the Excel chart of accounts against the
 * QuickBooks one, as the comparison's documented contract describes it:
 * accounts are matched by `id` only; an id on one side only is a one-sided
 * entry; a shared id whose name, number or type differ is one
 * `data_mismatch` conflict; a shared id whose three fields agree is silent.
 */
module Compare {
  import opened Wrappers
  import opened Models

  /** The field a dictionary over accounts is keyed by. */
  datatype Key = ById | ByNumber | ByName

  function KeyOf(a: Account, key: Key): string
  {
    match key
    case ById => a.id
    case ByNumber => a.number
    case ByName => a.name
  }

  /** The keys that occur in a sequence of accounts. */
  function KeysOf(terms: seq<Account>, key: Key): set<string>
  {
    set i | 0 <= i < |terms| :: KeyOf(terms[i], key)
  }

  predicate Distinct<T(==)>(s: seq<T>)
  {
    forall i, j :: 0 <= i < j < |s| ==> s[i] != s[j]
  }

  /** The set of a sequence's elements. */
  function ElementsOf<T>(s: seq<T>): set<T>
  {
    set i | 0 <= i < |s| :: s[i]
  }

  lemma ElementsOfSnoc<T>(s: seq<T>, x: T)
    ensures ElementsOf(s + [x]) == ElementsOf(s) + {x}
  {
    var t := s + [x];
    assert forall i :: 0 <= i < |s| ==> t[i] == s[i];
    assert t[|s|] == x;
  }

  lemma {:induction false} DistinctElementsCard<T>(s: seq<T>)
    requires Distinct(s)
    ensures |ElementsOf(s)| == |s|
    decreases |s|
  {
    if |s| > 0 {
      var p := s[..|s| - 1];
      DistinctElementsCard(p);
      assert s == p + [s[|s| - 1]];
      ElementsOfSnoc(p, s[|s| - 1]);
      assert s[|s| - 1] !in ElementsOf(p);
    }
  }

  /** No two accounts of the sequence carry the same id. */
  predicate DistinctIds(s: seq<Account>)
  {
    forall i, j :: 0 <= i < j < |s| ==> s[i].id != s[j].id
  }

  lemma DistinctIdsSnoc(s: seq<Account>, a: Account)
    requires DistinctIds(s)
    requires forall x :: x in s ==> x.id != a.id
    ensures DistinctIds(s + [a])
  {
    var t := s + [a];
    forall i, j | 0 <= i < j < |t| ensures t[i].id != t[j].id {
      assert t[i] == s[i];
      if j < |s| {
        assert t[j] == s[j];
      }
    }
  }

  lemma KeysOfSnoc(terms: seq<Account>, key: Key)
    requires |terms| > 0
    ensures KeysOf(terms, key) == KeysOf(terms[..|terms| - 1], key) + {KeyOf(terms[|terms| - 1], key)}
  {
    var p := terms[..|terms| - 1];
    forall k | k in KeysOf(terms, key) ensures k in KeysOf(p, key) + {KeyOf(terms[|terms| - 1], key)} {
      var i :| 0 <= i < |terms| && KeyOf(terms[i], key) == k;
      if i < |p| {
        assert KeyOf(p[i], key) == k;
      }
    }
    forall k | k in KeysOf(p, key) ensures k in KeysOf(terms, key) {
      var i :| 0 <= i < |p| && KeyOf(p[i], key) == k;
      assert KeyOf(terms[i], key) == k;
    }
  }

  /**
   * The dictionary `{KeyOf(t, key): t for t in terms}`: every key that occurs
   * maps to an account of `terms` carrying that key.
   */
  function IndexBy(terms: seq<Account>, key: Key): (m: map<string, Account>)
    ensures m.Keys == KeysOf(terms, key)
    ensures forall k :: k in m ==> KeyOf(m[k], key) == k && m[k] in terms
    decreases |terms|
  {
    if |terms| == 0 then map[]
    else
      var last := terms[|terms| - 1];
      var m := IndexBy(terms[..|terms| - 1], key);
      KeysOfSnoc(terms, key);
      assert forall k :: k in m ==> m[k] in terms by {
        forall k | k in m ensures m[k] in terms {
          var i :| 0 <= i < |terms| - 1 && terms[..|terms| - 1][i] == m[k];
          assert terms[i] == m[k];
        }
      }
      m[KeyOf(last, key) := last]
  }

  /** Duplicate keys: the LAST account carrying a key is the one the dictionary keeps. */
  lemma {:induction false} IndexLastWins(terms: seq<Account>, key: Key, i: nat)
    requires i < |terms|
    requires forall j :: i < j < |terms| ==> KeyOf(terms[j], key) != KeyOf(terms[i], key)
    ensures KeyOf(terms[i], key) in IndexBy(terms, key)
    ensures IndexBy(terms, key)[KeyOf(terms[i], key)] == terms[i]
  {
    if i < |terms| - 1 {
      var p := terms[..|terms| - 1];
      assert p[i] == terms[i];
      IndexLastWins(p, key, i);
    }
  }

  /** The ids of `terms` in the order a dictionary keyed by id first receives them. */
  function KeyOrder(terms: seq<Account>): (k: seq<string>)
    ensures Distinct(k)
    ensures forall id :: id in k <==> id in KeysOf(terms, ById)
    decreases |terms|
  {
    if |terms| == 0 then []
    else
      var last := terms[|terms| - 1];
      var p := KeyOrder(terms[..|terms| - 1]);
      KeysOfSnoc(terms, ById);
      if last.id in p then p else p + [last.id]
  }

  /** `dict.values()` of the id dictionary: first-seen order, last-seen record. */
  function Entries(terms: seq<Account>): (r: seq<Account>)
    ensures |r| == |KeyOrder(terms)|
    ensures forall i :: 0 <= i < |r| ==> r[i] == IndexBy(terms, ById)[KeyOrder(terms)[i]]
    ensures DistinctIds(r)
    ensures KeysOf(r, ById) == KeysOf(terms, ById)
  {
    var k := KeyOrder(terms);
    var m := IndexBy(terms, ById);
    var r := seq(|k|, i requires 0 <= i < |k| => m[k[i]]);
    assert forall i :: 0 <= i < |r| ==> r[i].id == k[i];
    assert KeysOf(r, ById) == KeysOf(terms, ById) by {
      forall id | id in KeysOf(terms, ById) ensures id in KeysOf(r, ById) {
        var i :| 0 <= i < |k| && k[i] == id;
        assert KeyOf(r[i], ById) == id;
      }
    }
    r
  }

  /** `terms[i]` is the first account of `terms` with its id. */
  predicate FirstOccurrence(terms: seq<Account>, i: nat)
    requires i < |terms|
  {
    forall j :: 0 <= j < i ==> terms[j].id != terms[i].id
  }

  /**
   * Dictionary order is first-seen order: the entry of an id first seen at
   * position i precedes the entry of an id first seen at a later position j.
   */
  lemma {:induction false} EntriesFollowFirstSeen(terms: seq<Account>, i: nat, j: nat)
    requires i < j < |terms|
    requires FirstOccurrence(terms, i) && FirstOccurrence(terms, j)
    ensures exists x, y ::
      0 <= x < y < |Entries(terms)| && Entries(terms)[x].id == terms[i].id && Entries(terms)[y].id == terms[j].id
  {
    var k := KeyOrder(terms);
    var x, y := KeyOrderPositions(terms, i, j);
    assert Entries(terms)[x].id == k[x] && Entries(terms)[y].id == k[y];
  }

  lemma {:induction false} KeyOrderPositions(terms: seq<Account>, i: nat, j: nat) returns (x: nat, y: nat)
    requires i < j < |terms|
    requires FirstOccurrence(terms, i) && FirstOccurrence(terms, j)
    ensures x < y < |KeyOrder(terms)|
    ensures KeyOrder(terms)[x] == terms[i].id && KeyOrder(terms)[y] == terms[j].id
  {
    var p := terms[..|terms| - 1];
    var kp := KeyOrder(p);
    KeysOfSnoc(terms, ById);
    assert p[i] == terms[i];
    if j == |terms| - 1 {
      assert terms[i].id in KeysOf(p, ById);
      assert forall m :: 0 <= m < |p| ==> p[m].id != terms[j].id by {
        forall m | 0 <= m < |p| ensures p[m].id != terms[j].id {
          assert p[m] == terms[m];
        }
      }
      x :| 0 <= x < |kp| && kp[x] == terms[i].id;
      y := |kp|;
    } else {
      assert p[j] == terms[j];
      x, y := KeyOrderPositions(p, i, j);
    }
  }

  /**
   * `[t for t in entries if t.id not in other]`: the entries whose id the
   * other side lacks, in their order.
   */
  function OnlyIn(entries: seq<Account>, other: set<string>): (r: seq<Account>)
    ensures forall a :: a in r ==> a in entries && a.id !in other
    ensures forall a :: a in entries && a.id !in other ==> a in r
    ensures DistinctIds(entries) ==> DistinctIds(r)
    decreases |entries|
  {
    if |entries| == 0 then []
    else
      var last := entries[|entries| - 1];
      var p := entries[..|entries| - 1];
      var r := OnlyIn(p, other);
      assert entries == p + [last];
      assert DistinctIds(entries) ==> DistinctIds(r) && DistinctIds(r + [last]) by {
        if DistinctIds(entries) {
          assert DistinctIds(p) by {
            forall i, j | 0 <= i < j < |p| ensures p[i].id != p[j].id {
              assert p[i] == entries[i] && p[j] == entries[j];
            }
          }
          forall a | a in r ensures a.id != last.id {
            var m :| 0 <= m < |p| && p[m] == a;
            assert entries[m] == a;
          }
          DistinctIdsSnoc(r, last);
        }
      }
      if last.id in other then r else r + [last]
  }

  /** Filtering one more entry of a prefix extends the filtered prefix by that entry or by nothing. */
  lemma OnlyInPrefix(entries: seq<Account>, other: set<string>, i: nat)
    requires i < |entries|
    ensures OnlyIn(entries[..i + 1], other) ==
      if entries[i].id in other then OnlyIn(entries[..i], other) else OnlyIn(entries[..i], other) + [entries[i]]
  {
    assert entries[..i + 1][..i] == entries[..i];
  }

  /**
   * `r` is `s` with some elements left out: `pos` gives, in strictly
   * increasing order, the position in `s` each element of `r` comes from.
   */
  ghost predicate SubsequenceAt<T>(r: seq<T>, s: seq<T>, pos: seq<int>)
  {
    && |pos| == |r|
    && (forall i :: 0 <= i < |pos| ==> 0 <= pos[i] < |s| && s[pos[i]] == r[i])
    && (forall i, j :: 0 <= i < j < |pos| ==> pos[i] < pos[j])
  }

  /** `a` occurs in `s` at an earlier position than `b`. */
  ghost predicate Precedes<T>(s: seq<T>, a: T, b: T)
  {
    exists x, y :: 0 <= x < y < |s| && s[x] == a && s[y] == b
  }

  /** A subsequence keeps the order of `s`, in both directions, for the positions it keeps. */
  lemma SubsequenceOrder<T>(r: seq<T>, s: seq<T>, pos: seq<int>)
    requires SubsequenceAt(r, s, pos)
    ensures forall i, j :: 0 <= i < j < |r| ==> Precedes(s, r[i], r[j])
    ensures forall x, y :: 0 <= x < y < |s| && x in pos && y in pos ==> Precedes(r, s[x], s[y])
  {
    forall i, j | 0 <= i < j < |r|
      ensures Precedes(s, r[i], r[j])
    {
      var x, y := pos[i], pos[j];
      assert 0 <= x < y < |s| && s[x] == r[i] && s[y] == r[j];
    }
    forall x, y | 0 <= x < y < |s| && x in pos && y in pos
      ensures Precedes(r, s[x], s[y])
    {
      var i :| 0 <= i < |pos| && pos[i] == x;
      var j :| 0 <= j < |pos| && pos[j] == y;
      assert r[i] == s[x] && r[j] == s[y];
    }
  }

  /** Appending to `s` keeps a subsequence; appending to both extends it by the new last position. */
  lemma SubsequenceSnoc<T>(r: seq<T>, s: seq<T>, pos: seq<int>, a: T)
    requires SubsequenceAt(r, s, pos)
    ensures SubsequenceAt(r, s + [a], pos)
    ensures SubsequenceAt(r + [a], s + [a], pos + [|s|])
  {
    var s', r', pos' := s + [a], r + [a], pos + [|s|];
    assert forall i :: 0 <= i < |pos| ==> s'[pos[i]] == s[pos[i]];
    assert forall i :: 0 <= i < |pos| ==> pos'[i] == pos[i] && r'[i] == r[i];
  }

  /** The positions of the entries `OnlyIn` keeps: exactly those whose id the other side lacks. */
  lemma {:induction false} OnlyInPositions(entries: seq<Account>, other: set<string>) returns (pos: seq<int>)
    ensures SubsequenceAt(OnlyIn(entries, other), entries, pos)
    ensures forall x :: 0 <= x < |entries| && entries[x].id !in other ==> x in pos
    decreases |entries|
  {
    if |entries| == 0 {
      pos := [];
    } else {
      var p := entries[..|entries| - 1];
      var last := entries[|entries| - 1];
      assert entries == p + [last];
      var pp := OnlyInPositions(p, other);
      SubsequenceSnoc(OnlyIn(p, other), p, pp, last);
      pos := if last.id in other then pp else pp + [|p|];
      forall x | 0 <= x < |entries| && entries[x].id !in other
        ensures x in pos
      {
        if x < |p| {
          assert p[x] == entries[x];
          var k :| 0 <= k < |pp| && pp[k] == x;
          assert pos[k] == x;
        } else {
          assert pos[|pos| - 1] == x;
        }
      }
    }
  }

  /**
   * `OnlyIn` keeps the entries' order: two kept entries come in the order
   * they had, and any two entries the filter keeps are kept in that order.
   */
  lemma OnlyInKeepsOrder(entries: seq<Account>, other: set<string>)
    ensures var r := OnlyIn(entries, other);
      forall i, j :: 0 <= i < j < |r| ==> Precedes(entries, r[i], r[j])
    ensures var r := OnlyIn(entries, other);
      forall x, y :: 0 <= x < y < |entries| && entries[x].id !in other && entries[y].id !in other ==>
        Precedes(r, entries[x], entries[y])
  {
    var pos := OnlyInPositions(entries, other);
    SubsequenceOrder(OnlyIn(entries, other), entries, pos);
  }

  /** `added_chart_of_accounts`: the Excel accounts whose id QuickBooks lacks. */
  function AddedChartOfAccounts(excel: seq<Account>, qb: seq<Account>): seq<Account>
  {
    OnlyIn(Entries(excel), KeysOf(qb, ById))
  }

  /** `qb_only`: the QuickBooks accounts whose id Excel lacks. */
  function QbOnly(excel: seq<Account>, qb: seq<Account>): seq<Account>
  {
    OnlyIn(Entries(qb), KeysOf(excel, ById))
  }

  /**
   * A one-sided list is ordered by where each id first appeared on its side:
   * of two ids the other side lacks, the one seen first comes first. This
   * covers `added_chart_of_accounts` (side Excel) and `qb_only` (side
   * QuickBooks).
   */
  lemma OneSidedFollowsFirstSeen(side: seq<Account>, other: seq<Account>, i: nat, j: nat)
    requires i < j < |side|
    requires FirstOccurrence(side, i) && FirstOccurrence(side, j)
    requires side[i].id !in KeysOf(other, ById) && side[j].id !in KeysOf(other, ById)
    ensures var r := OnlyIn(Entries(side), KeysOf(other, ById));
      exists x, y :: 0 <= x < y < |r| && r[x].id == side[i].id && r[y].id == side[j].id
  {
    var e := Entries(side);
    var r := OnlyIn(e, KeysOf(other, ById));
    EntriesFollowFirstSeen(side, i, j);
    var x, y :| 0 <= x < y < |e| && e[x].id == side[i].id && e[y].id == side[j].id;
    OnlyInKeepsOrder(e, KeysOf(other, ById));
    assert Precedes(r, e[x], e[y]);
  }

  lemma DistinctIdsCard(s: seq<Account>)
    requires DistinctIds(s)
    ensures |KeysOf(s, ById)| == |s|
  {
    var ids := seq(|s|, i requires 0 <= i < |s| => s[i].id);
    DistinctElementsCard(ids);
    assert ElementsOf(ids) == KeysOf(s, ById) by {
      forall k | k in KeysOf(s, ById) ensures k in ElementsOf(ids) {
        var i :| 0 <= i < |s| && KeyOf(s[i], ById) == k;
        assert ids[i] == k;
      }
    }
  }

  lemma OneSidedMembers(side: seq<Account>, other: seq<Account>)
    ensures forall a :: a in OnlyIn(Entries(side), KeysOf(other, ById)) <==>
      a.id in KeysOf(side, ById) && a.id !in KeysOf(other, ById) && a == IndexBy(side, ById)[a.id]
  {
    var e := Entries(side);
    var k := KeyOrder(side);
    var m := IndexBy(side, ById);
    var r := OnlyIn(e, KeysOf(other, ById));
    forall a: Account | a.id in KeysOf(side, ById) && a.id !in KeysOf(other, ById) && a == m[a.id]
      ensures a in r
    {
      var i :| 0 <= i < |k| && k[i] == a.id;
      assert e[i] == a;
    }
    forall a | a in r
      ensures a.id in KeysOf(side, ById) && a == m[a.id]
    {
      var i :| 0 <= i < |e| && e[i] == a;
      assert KeyOf(e[i], ById) == a.id;
    }
  }

  lemma OneSidedIds(side: seq<Account>, other: seq<Account>)
    ensures KeysOf(OnlyIn(Entries(side), KeysOf(other, ById)), ById) == KeysOf(side, ById) - KeysOf(other, ById)
  {
    var m := IndexBy(side, ById);
    var r := OnlyIn(Entries(side), KeysOf(other, ById));
    OneSidedMembers(side, other);
    forall id | id in KeysOf(side, ById) - KeysOf(other, ById) ensures id in KeysOf(r, ById) {
      assert m[id] in r;
      var i :| 0 <= i < |r| && r[i] == m[id];
      assert KeyOf(r[i], ById) == id;
    }
    forall id | id in KeysOf(r, ById) ensures id in KeysOf(side, ById) - KeysOf(other, ById) {
      var i :| 0 <= i < |r| && KeyOf(r[i], ById) == id;
      assert r[i] in r;
    }
  }

  /**
   * A one-sided list holds exactly the side's accounts (the last record per
   * id) whose id the other side lacks, ids compared exactly, each id once;
   * so its length is the number of such distinct ids.
   */
  lemma OneSidedExactly(side: seq<Account>, other: seq<Account>)
    ensures forall a :: a in OnlyIn(Entries(side), KeysOf(other, ById)) <==>
      a.id in KeysOf(side, ById) && a.id !in KeysOf(other, ById) && a == IndexBy(side, ById)[a.id]
    ensures DistinctIds(OnlyIn(Entries(side), KeysOf(other, ById)))
    ensures KeysOf(OnlyIn(Entries(side), KeysOf(other, ById)), ById) == KeysOf(side, ById) - KeysOf(other, ById)
    ensures |OnlyIn(Entries(side), KeysOf(other, ById))| == |KeysOf(side, ById) - KeysOf(other, ById)|
  {
    OneSidedMembers(side, other);
    OneSidedIds(side, other);
    DistinctIdsCard(OnlyIn(Entries(side), KeysOf(other, ById)));
  }

  /** The ids both sides carry. */
  function SharedIds(excel: seq<Account>, qb: seq<Account>): set<string>
  {
    KeysOf(excel, ById) * KeysOf(qb, ById)
  }

  /** Name, number and account type all agree (the origin is not compared). */
  predicate SameData(e: Account, q: Account)
  {
    e.number == q.number && e.accountType == q.accountType && e.name == q.name
  }

  /** Shared ids whose retained records agree on all three compared fields. */
  function PerfectIds(excel: seq<Account>, qb: seq<Account>): set<string>
  {
    var e := IndexBy(excel, ById);
    var q := IndexBy(qb, ById);
    set id | id in SharedIds(excel, qb) && SameData(e[id], q[id])
  }

  /** Shared ids whose retained records differ in name, number or type. */
  function MismatchIds(excel: seq<Account>, qb: seq<Account>): set<string>
  {
    var e := IndexBy(excel, ById);
    var q := IndexBy(qb, ById);
    set id | id in SharedIds(excel, qb) && !SameData(e[id], q[id])
  }

  /** The conflict raised for a shared id whose records differ. */
  function MismatchConflict(e: Account, q: Account): Conflict
  {
    Conflict(e.id, e.accountType, Some(q.accountType), Some(e.name), Some(q.name),
             Some(e.number), Some(q.number), DataMismatch)
  }

  /** `c` is the data-mismatch conflict of one of the mismatching shared ids. */
  predicate IsMismatchConflict(excel: seq<Account>, qb: seq<Account>, c: Conflict)
  {
    c.id in MismatchIds(excel, qb) &&
    c == MismatchConflict(IndexBy(excel, ById)[c.id], IndexBy(qb, ById)[c.id])
  }

  function ConflictIds(cs: seq<Conflict>): set<string>
  {
    set c | c in cs :: c.id
  }

  predicate DistinctConflictIds(cs: seq<Conflict>)
  {
    forall i, j :: 0 <= i < j < |cs| ==> cs[i].id != cs[j].id
  }

  lemma DistinctConflictIdsCard(cs: seq<Conflict>)
    requires DistinctConflictIds(cs)
    ensures |ConflictIds(cs)| == |cs|
  {
    var ids := seq(|cs|, i requires 0 <= i < |cs| => cs[i].id);
    DistinctElementsCard(ids);
    assert ElementsOf(ids) == ConflictIds(cs) by {
      forall k | k in ConflictIds(cs) ensures k in ElementsOf(ids) {
        var c :| c in cs && c.id == k;
        var i :| 0 <= i < |cs| && cs[i] == c;
        assert ids[i] == k;
      }
    }
  }

  /**
   * `r` is a possible result of comparing `excel` with `qb`: the one-sided
   * lists are determined; the conflicts, whose order follows an unordered
   * set, are exactly one data-mismatch conflict per mismatching shared id.
   */
  predicate IsComparisonOf(r: ComparisonReport, excel: seq<Account>, qb: seq<Account>)
  {
    && r.addedChartOfAccounts == AddedChartOfAccounts(excel, qb)
    && r.qbOnly == QbOnly(excel, qb)
    && (forall c :: c in r.conflicts ==> IsMismatchConflict(excel, qb, c))
    && ConflictIds(r.conflicts) == MismatchIds(excel, qb)
    && DistinctConflictIds(r.conflicts)
  }

  lemma ConflictIdsSnoc(cs: seq<Conflict>, c: Conflict)
    ensures ConflictIds(cs + [c]) == ConflictIds(cs) + {c.id}
  {
    assert forall x :: x in cs + [c] <==> x in cs || x == c;
  }

  /**
   * What the reconciler's loop has built once the ids in `seen` are done:
   * one data-mismatch conflict for each mismatching one of them.
   */
  ghost predicate MismatchLoopInvariant(excel: seq<Account>, qb: seq<Account>, pending: set<string>,
                                        seen: set<string>, conflicts: seq<Conflict>)
  {
    && pending + seen == SharedIds(excel, qb)
    && pending !! seen
    && (forall c :: c in conflicts ==> IsMismatchConflict(excel, qb, c))
    && ConflictIds(conflicts) == MismatchIds(excel, qb) * seen
    && DistinctConflictIds(conflicts)
  }

  /** One iteration of the reconciler's loop keeps its invariant. */
  lemma MismatchLoopStep(excel: seq<Account>, qb: seq<Account>, pending: set<string>, seen: set<string>,
                         conflicts: seq<Conflict>, id: string)
    requires MismatchLoopInvariant(excel, qb, pending, seen, conflicts)
    requires id in pending
    ensures id in IndexBy(excel, ById) && id in IndexBy(qb, ById)
    ensures var e, q := IndexBy(excel, ById)[id], IndexBy(qb, ById)[id];
      && (!SameData(e, q) ==>
          MismatchLoopInvariant(excel, qb, pending - {id}, seen + {id}, conflicts + [MismatchConflict(e, q)]))
      && (SameData(e, q) ==> MismatchLoopInvariant(excel, qb, pending - {id}, seen + {id}, conflicts))
  {
    var e, q := IndexBy(excel, ById)[id], IndexBy(qb, ById)[id];
    var c := MismatchConflict(e, q);
    assert c.id == id;
    ConflictIdsSnoc(conflicts, c);
    var t := conflicts + [c];
    forall i, j | 0 <= i < j < |t| ensures t[i].id != t[j].id {
      if j < |conflicts| {
        assert t[i] == conflicts[i] && t[j] == conflicts[j];
      } else {
        assert t[i] in conflicts;
      }
    }
  }

  /**
   * The reconciler. The id dictionaries and the one-sided lists are
   * comprehensions; the conflicts are appended while iterating the set of
   * shared ids, whose order is not fixed.
   */
  method CompareAccountTypes(excel: seq<Account>, qb: seq<Account>) returns (report: ComparisonReport)
    ensures report.addedChartOfAccounts == AddedChartOfAccounts(excel, qb)
    ensures report.qbOnly == QbOnly(excel, qb)
    ensures forall c :: c in report.conflicts ==> IsMismatchConflict(excel, qb, c)
    ensures ConflictIds(report.conflicts) == MismatchIds(excel, qb)
    ensures DistinctConflictIds(report.conflicts)
  {
    var excelDict := IndexBy(excel, ById);
    var qbDict := IndexBy(qb, ById);
    var conflicts: seq<Conflict> := [];
    var pending := excelDict.Keys * qbDict.Keys;
    ghost var seen: set<string> := {};
    while pending != {}
      invariant MismatchLoopInvariant(excel, qb, pending, seen, conflicts)
      decreases pending
    {
      var accId :| accId in pending;
      MismatchLoopStep(excel, qb, pending, seen, conflicts, accId);
      var excelTerm := excelDict[accId];
      var qbTerm := qbDict[accId];
      if !SameData(excelTerm, qbTerm) {
        conflicts := conflicts + [MismatchConflict(excelTerm, qbTerm)];
      }
      pending := pending - {accId};
      seen := seen + {accId};
    }
    report := ComparisonReport(AddedChartOfAccounts(excel, qb), QbOnly(excel, qb), conflicts);
  }

  /**
   * Every distinct Excel id lands in exactly one place: the added list, the
   * conflicts, or the silent perfect matches.
   */
  lemma ExcelIdsPartitioned(r: ComparisonReport, excel: seq<Account>, qb: seq<Account>)
    requires IsComparisonOf(r, excel, qb)
    ensures KeysOf(excel, ById) ==
      KeysOf(r.addedChartOfAccounts, ById) + ConflictIds(r.conflicts) + PerfectIds(excel, qb)
    ensures KeysOf(r.addedChartOfAccounts, ById) !! ConflictIds(r.conflicts)
    ensures KeysOf(r.addedChartOfAccounts, ById) !! PerfectIds(excel, qb)
    ensures ConflictIds(r.conflicts) !! PerfectIds(excel, qb)
  {
    OneSidedIds(excel, qb);
  }

  /**
   * Every distinct QuickBooks id lands in exactly one place: `qb_only`, the
   * conflicts, or the silent perfect matches.
   */
  lemma QbIdsPartitioned(r: ComparisonReport, excel: seq<Account>, qb: seq<Account>)
    requires IsComparisonOf(r, excel, qb)
    ensures KeysOf(qb, ById) == KeysOf(r.qbOnly, ById) + ConflictIds(r.conflicts) + PerfectIds(excel, qb)
    ensures KeysOf(r.qbOnly, ById) !! ConflictIds(r.conflicts)
    ensures KeysOf(r.qbOnly, ById) !! PerfectIds(excel, qb)
    ensures ConflictIds(r.conflicts) !! PerfectIds(excel, qb)
  {
    OneSidedIds(qb, excel);
  }

  /** A shared id whose name, number and type agree appears in none of the three lists. */
  lemma PerfectMatchIsSilent(r: ComparisonReport, excel: seq<Account>, qb: seq<Account>, id: string)
    requires IsComparisonOf(r, excel, qb)
    requires id in SharedIds(excel, qb)
    requires SameData(IndexBy(excel, ById)[id], IndexBy(qb, ById)[id])
    ensures forall a :: a in r.addedChartOfAccounts ==> a.id != id
    ensures forall a :: a in r.qbOnly ==> a.id != id
    ensures forall c :: c in r.conflicts ==> c.id != id
  {
    OneSidedMembers(excel, qb);
    OneSidedMembers(qb, excel);
  }

  /**
   * A shared id whose name, number or type differ yields exactly one
   * conflict: reason `data_mismatch`, carrying both sides' name, number and
   * type; and no one-sided entry.
   */
  lemma MismatchIsOneConflict(r: ComparisonReport, excel: seq<Account>, qb: seq<Account>, id: string)
    requires IsComparisonOf(r, excel, qb)
    requires id in SharedIds(excel, qb)
    requires !SameData(IndexBy(excel, ById)[id], IndexBy(qb, ById)[id])
    ensures var e, q := IndexBy(excel, ById)[id], IndexBy(qb, ById)[id];
      exists i :: 0 <= i < |r.conflicts| && r.conflicts[i] == MismatchConflict(e, q) &&
        (forall j :: 0 <= j < |r.conflicts| && j != i ==> r.conflicts[j].id != id)
    ensures var e, q := IndexBy(excel, ById)[id], IndexBy(qb, ById)[id];
      var c := MismatchConflict(e, q);
      && c.id == id && c.reason == DataMismatch && c.excelType == e.accountType
      && c.qbType == Some(q.accountType) && c.excelName == Some(e.name) && c.qbName == Some(q.name)
      && c.excelNumber == Some(e.number) && c.qbNumber == Some(q.number)
    ensures forall a :: a in r.addedChartOfAccounts ==> a.id != id
    ensures forall a :: a in r.qbOnly ==> a.id != id
  {
    OneSidedMembers(excel, qb);
    OneSidedMembers(qb, excel);
    assert id in ConflictIds(r.conflicts);
    var c :| c in r.conflicts && c.id == id;
    var i :| 0 <= i < |r.conflicts| && r.conflicts[i] == c;
    assert IsMismatchConflict(excel, qb, c);
  }

  /** No shared id: no conflicts, and each one-sided list has one entry per distinct id of its side. */
  lemma DisjointIdsOnlyOneSided(r: ComparisonReport, excel: seq<Account>, qb: seq<Account>)
    requires IsComparisonOf(r, excel, qb)
    requires SharedIds(excel, qb) == {}
    ensures r.conflicts == []
    ensures |r.addedChartOfAccounts| == |KeysOf(excel, ById)|
    ensures |r.qbOnly| == |KeysOf(qb, ById)|
  {
    assert MismatchIds(excel, qb) <= SharedIds(excel, qb);
    NoConflictIds(r.conflicts);
    OneSidedSizeDisjoint(excel, qb);
    OneSidedSizeDisjoint(qb, excel);
  }

  lemma NoConflictIds(cs: seq<Conflict>)
    requires ConflictIds(cs) == {}
    ensures cs == []
  {
    assert cs == [] || cs[0].id in ConflictIds(cs);
  }

  lemma OneSidedSizeDisjoint(side: seq<Account>, other: seq<Account>)
    requires KeysOf(side, ById) * KeysOf(other, ById) == {}
    ensures |OnlyIn(Entries(side), KeysOf(other, ById))| == |KeysOf(side, ById)|
  {
    var a, b := KeysOf(side, ById), KeysOf(other, ById);
    assert a - b == a by {
      forall x | x in a ensures x !in b {
        assert x !in a * b;
      }
    }
    OneSidedIds(side, other);
    DistinctIdsCard(OnlyIn(Entries(side), b));
  }

  /** Two empty inputs give the freshly constructed, empty report. */
  lemma EmptyInputsGiveEmptyReport(r: ComparisonReport)
    requires IsComparisonOf(r, [], [])
    ensures r == EmptyReport()
  {
    DisjointIdsOnlyOneSided(r, [], []);
  }

  lemma {:induction false} DistinctMultiset<T>(s: seq<T>)
    requires Distinct(s)
    ensures forall x :: multiset(s)[x] == if x in s then 1 else 0
  {
    if |s| > 0 {
      var p := s[..|s| - 1];
      assert s == p + [s[|s| - 1]];
      assert Distinct(p) by {
        forall i, j | 0 <= i < j < |p| ensures p[i] != p[j] {
          assert p[i] == s[i] && p[j] == s[j];
        }
      }
      DistinctMultiset(p);
      assert s[|s| - 1] !in p by {
        forall i | 0 <= i < |p| ensures p[i] != s[|s| - 1] {
          assert p[i] == s[i];
        }
      }
    }
  }

  /**
   * Running the comparison twice on the same inputs gives the same one-sided
   * lists and the same conflicts; only the conflicts' order may differ.
   */
  lemma ComparisonIsDeterminedUpToConflictOrder(r1: ComparisonReport, r2: ComparisonReport,
                                                excel: seq<Account>, qb: seq<Account>)
    requires IsComparisonOf(r1, excel, qb) && IsComparisonOf(r2, excel, qb)
    ensures r1.addedChartOfAccounts == r2.addedChartOfAccounts
    ensures r1.qbOnly == r2.qbOnly
    ensures multiset(r1.conflicts) == multiset(r2.conflicts)
  {
    forall c | c in r1.conflicts ensures c in r2.conflicts {
      assert c.id in ConflictIds(r2.conflicts);
      var c2 :| c2 in r2.conflicts && c2.id == c.id;
      assert IsMismatchConflict(excel, qb, c2);
    }
    forall c | c in r2.conflicts ensures c in r1.conflicts {
      assert c.id in ConflictIds(r1.conflicts);
      var c1 :| c1 in r1.conflicts && c1.id == c.id;
      assert IsMismatchConflict(excel, qb, c1);
    }
    DistinctMultiset(r1.conflicts);
    DistinctMultiset(r2.conflicts);
  }

  /** With no duplicate ids the id dictionary's values are the input itself, in order. */
  lemma {:induction false} EntriesOfDistinct(terms: seq<Account>)
    requires DistinctIds(terms)
    ensures Entries(terms) == terms
  {
    KeyOrderOfDistinct(terms);
    forall i | 0 <= i < |terms| ensures Entries(terms)[i] == terms[i] {
      IndexLastWins(terms, ById, i);
    }
  }

  lemma {:induction false} KeyOrderOfDistinct(terms: seq<Account>)
    requires DistinctIds(terms)
    ensures |KeyOrder(terms)| == |terms|
    ensures forall i :: 0 <= i < |terms| ==> KeyOrder(terms)[i] == terms[i].id
  {
    if |terms| > 0 {
      var p := terms[..|terms| - 1];
      KeyOrderOfDistinct(p);
      KeysOfSnoc(terms, ById);
      assert terms[|terms| - 1].id !in KeyOrder(p) by {
        forall m | 0 <= m < |p| ensures KeyOrder(p)[m] != terms[|terms| - 1].id {
          assert p[m] == terms[m];
        }
      }
    }
  }
}
