/**
 * Ledger entries (server/src/dao/ledgerDao.ts:4-33) and the per-denomination effect of a list of
 * them, as the server's two reversal-aware folds compute it: `calculateBalance` in
 * server/src/utils.ts, which never looks at `is_reverted`, and `getDrawerBalance` in
 * server/src/routes/drawer.ts, which skips reverted entries. Sums run from the end of the list
 * so that a loop over `entries[..i]` extends them one entry at a time.
 */
module Ledger {
  import opened Denominations

  /** The structured payload; its constructor is the entry's `entry_type`. */
  datatype EntryData =
    | Sale(products: seq<int>, totalPrice: int, paidAmount: Amount, changeGiven: Amount)
    | Deposit(person: string, amount: Amount)
    | Withdrawal(person: string, amount: Amount)
    | Reversal(originalEntryId: int)

  /** `entry_type` on its own, as the client receives it next to a payload it may fail to read. */
  datatype EntryType = SaleType | DepositType | WithdrawalType | ReversalType

  function TypeOf(data: EntryData): EntryType {
    match data
    case Sale(_, _, _, _) => SaleType
    case Deposit(_, _) => DepositType
    case Withdrawal(_, _) => WithdrawalType
    case Reversal(_) => ReversalType
  }

  /** One row of `ledger_entries`; `created_at` is represented by the row's position. */
  datatype LedgerEntry = LedgerEntry(id: int, posInstanceId: string, data: EntryData, isReverted: bool)

  /** Every count map in the payload is keyed by face values from ds. */
  predicate DataKeysIn(data: EntryData, ds: seq<int>) {
    match data
    case Sale(_, _, paid, change) => KeysIn(paid, ds) && KeysIn(change, ds)
    case Deposit(_, amount) => KeysIn(amount, ds)
    case Withdrawal(_, amount) => KeysIn(amount, ds)
    case Reversal(_) => true
  }

  predicate EntriesKeysIn(es: seq<LedgerEntry>, ds: seq<int>) {
    forall e | e in es :: DataKeysIn(e.data, ds)
  }

  /** The ids present in a list of entries. */
  function Ids(es: seq<LedgerEntry>): set<int> {
    set e | e in es :: e.id
  }

  /** No two different entries share an id (the table's primary key). */
  predicate UniqueIds(es: seq<LedgerEntry>) {
    forall e1, e2 | e1 in es && e2 in es && e1.id == e2.id :: e1 == e2
  }

  /** No reversal in es points at id k. */
  predicate NoReversalOf(es: seq<LedgerEntry>, k: int) {
    forall x | x in es && x.data.Reversal? :: x.data.originalEntryId != k
  }

  /** `new Map(entries.map(e => [e.id, e]))`: a later entry with the same id replaces an earlier one. */
  function IdIndex(es: seq<LedgerEntry>): map<int, LedgerEntry> {
    if es == [] then map[] else
      var last := es[|es| - 1];
      IdIndex(es[..|es| - 1])[last.id := last]
  }

  /** The index holds exactly the ids of the list, each mapped to an entry of the list with that id. */
  lemma {:induction false} IdIndexContents(es: seq<LedgerEntry>)
    ensures IdIndex(es).Keys == Ids(es)
    ensures forall k | k in IdIndex(es) :: IdIndex(es)[k] in es && IdIndex(es)[k].id == k
  {
    if es != [] {
      var init := es[..|es| - 1];
      var last := es[|es| - 1];
      IdIndexContents(init);
      assert es == init + [last];
      assert Ids(es) == Ids(init) + {last.id};
    }
  }

  /** With unique ids the index depends only on which entries are present, not on their order. */
  lemma IdIndexSameEntries(es: seq<LedgerEntry>, fs: seq<LedgerEntry>)
    requires UniqueIds(es)
    requires forall e :: e in es <==> e in fs
    ensures IdIndex(es) == IdIndex(fs)
  {
    IdIndexContents(es);
    IdIndexContents(fs);
    var m, n := IdIndex(es), IdIndex(fs);
    forall k
      ensures k in m <==> k in n
    {
      if k in m {
        var e :| e in es && e.id == k;
        assert e in fs;
      }
      if k in n {
        var e :| e in fs && e.id == k;
        assert e in es;
      }
    }
    forall k | k in m
      ensures m[k] == n[k]
    {
      assert m[k] in es && n[k] in es;
    }
  }

  /** The change an entry's own payload makes to the count of face value d. */
  function OwnDelta(data: EntryData, d: int): int {
    match data
    case Sale(_, _, paid, change) => Count(paid, d) - Count(change, d)
    case Deposit(_, amount) => Count(amount, d)
    case Withdrawal(_, amount) => -Count(amount, d)
    case Reversal(_) => 0
  }

  /**
   * The change one entry makes in `calculateBalance`: its own payload, except that a reversal
   * undoes the entry it points to when that entry is in the index; reversing a reversal has no
   * case and changes nothing.
   */
  function UtilsDelta(e: LedgerEntry, index: map<int, LedgerEntry>, d: int): int {
    match e.data
    case Reversal(o) => if o in index then -OwnDelta(index[o].data, d) else 0
    case _ => OwnDelta(e.data, d)
  }

  function UtilsSum(es: seq<LedgerEntry>, index: map<int, LedgerEntry>, d: int): int {
    if es == [] then 0 else UtilsSum(es[..|es| - 1], index, d) + UtilsDelta(es[|es| - 1], index, d)
  }

  /** What `calculateBalance` leaves in the count of face value d. */
  function UtilsBalance(es: seq<LedgerEntry>, d: int): int {
    UtilsSum(es, IdIndex(es), d)
  }

  /** The change one entry makes in `getDrawerBalance`: nothing when it is flagged reverted. */
  function DrawerDelta(e: LedgerEntry, index: map<int, LedgerEntry>, d: int): int {
    if e.isReverted then 0 else UtilsDelta(e, index, d)
  }

  function DrawerSum(es: seq<LedgerEntry>, index: map<int, LedgerEntry>, d: int): int {
    if es == [] then 0 else DrawerSum(es[..|es| - 1], index, d) + DrawerDelta(es[|es| - 1], index, d)
  }

  /** One more entry of a prefix adds that entry's effect. */
  lemma UtilsSumStep(es: seq<LedgerEntry>, i: int, index: map<int, LedgerEntry>)
    requires 0 <= i < |es|
    ensures forall d :: UtilsSum(es[..i + 1], index, d) == UtilsSum(es[..i], index, d) + UtilsDelta(es[i], index, d)
  {
    assert es[..i + 1][..i] == es[..i];
  }

  lemma DrawerSumStep(es: seq<LedgerEntry>, i: int, index: map<int, LedgerEntry>)
    requires 0 <= i < |es|
    ensures forall d :: DrawerSum(es[..i + 1], index, d) == DrawerSum(es[..i], index, d) + DrawerDelta(es[i], index, d)
  {
    assert es[..i + 1][..i] == es[..i];
  }

  /** What `getDrawerBalance` leaves in the count of face value d. */
  function DrawerBalance(es: seq<LedgerEntry>, d: int): int {
    DrawerSum(es, IdIndex(es), d)
  }

  /** The own deltas of the entries flagged reverted. */
  function RevertedSum(es: seq<LedgerEntry>, d: int): int {
    if es == [] then 0 else
      var last := es[|es| - 1];
      RevertedSum(es[..|es| - 1], d) + (if last.isReverted then OwnDelta(last.data, d) else 0)
  }

  // ---------------------------------------------------------------------------------------
  // calculateBalance does not depend on the order of the entries

  lemma {:induction false} UtilsSumRemove(es: seq<LedgerEntry>, i: int, index: map<int, LedgerEntry>, d: int)
    requires 0 <= i < |es|
    ensures UtilsSum(es, index, d) == UtilsSum(es[..i] + es[i + 1..], index, d) + UtilsDelta(es[i], index, d)
  {
    var n := |es|;
    if i < n - 1 {
      var init := es[..n - 1];
      UtilsSumRemove(init, i, index, d);
      var rest := es[..i] + es[i + 1..];
      assert rest[..|rest| - 1] == init[..i] + init[i + 1..];
      assert rest[|rest| - 1] == es[n - 1];
    } else {
      assert es[..i] + es[i + 1..] == es[..n - 1];
    }
  }

  /** Taking out one position takes out one occurrence of its element. */
  lemma MultisetRemove(fs: seq<LedgerEntry>, i: int)
    requires 0 <= i < |fs|
    ensures multiset(fs[..i] + fs[i + 1..]) == multiset(fs) - multiset{fs[i]}
  {
    assert fs == fs[..i] + [fs[i]] + fs[i + 1..];
    assert multiset(fs) == multiset(fs[..i]) + multiset{fs[i]} + multiset(fs[i + 1..]);
  }

  lemma {:induction false} UtilsSumPermutation(es: seq<LedgerEntry>, fs: seq<LedgerEntry>, index: map<int, LedgerEntry>, d: int)
    requires multiset(es) == multiset(fs)
    ensures UtilsSum(es, index, d) == UtilsSum(fs, index, d)
    decreases |es|
  {
    if es == [] {
      assert |fs| == |multiset(fs)| == 0;
    } else {
      var n := |es|;
      var init := es[..n - 1];
      var last := es[n - 1];
      assert es == init + [last];
      assert multiset(es) == multiset(init) + multiset{last};
      assert last in fs by {
        assert last in multiset(fs);
      }
      var i :| 0 <= i < |fs| && fs[i] == last;
      var rest := fs[..i] + fs[i + 1..];
      MultisetRemove(fs, i);
      assert multiset(rest) == multiset(init);
      UtilsSumPermutation(init, rest, index, d);
      UtilsSumRemove(fs, i, index, d);
    }
  }

  /**
   * `calculateBalance` gives the same counts for any ordering of the same entries, provided
   * ids are unique: each entry's effect depends only on itself and the whole-batch index.
   */
  lemma UtilsBalanceOrderFree(es: seq<LedgerEntry>, fs: seq<LedgerEntry>, d: int)
    requires UniqueIds(es) && multiset(es) == multiset(fs)
    ensures UtilsBalance(es, d) == UtilsBalance(fs, d)
  {
    forall e
      ensures e in es <==> e in fs
    {
      assert e in es <==> e in multiset(es);
    }
    IdIndexSameEntries(es, fs);
    UtilsSumPermutation(es, fs, IdIndex(es), d);
  }

  // ---------------------------------------------------------------------------------------
  // Appending entries

  lemma {:induction false} UtilsSumIndexAgree(es: seq<LedgerEntry>, m: map<int, LedgerEntry>, n: map<int, LedgerEntry>, d: int)
    requires forall x | x in es :: UtilsDelta(x, m, d) == UtilsDelta(x, n, d)
    ensures UtilsSum(es, m, d) == UtilsSum(es, n, d)
  {
    if es != [] {
      assert forall x | x in es[..|es| - 1] :: x in es;
      UtilsSumIndexAgree(es[..|es| - 1], m, n, d);
    }
  }

  /**
   * Appending an entry whose id is new and that no earlier reversal points at adds exactly
   * that entry's effect, judged against the index that now includes it.
   */
  lemma UtilsBalanceAppend(es: seq<LedgerEntry>, e: LedgerEntry, d: int)
    requires NoReversalOf(es, e.id)
    ensures UtilsBalance(es + [e], d) == UtilsBalance(es, d) + UtilsDelta(e, IdIndex(es + [e]), d)
  {
    var all := es + [e];
    assert all[..|all| - 1] == es;
    var m := IdIndex(es);
    assert IdIndex(all) == m[e.id := e];
    forall x | x in es
      ensures UtilsDelta(x, m, d) == UtilsDelta(x, m[e.id := e], d)
    {
    }
    UtilsSumIndexAgree(es, m, m[e.id := e], d);
  }

  /** A sale, deposit or withdrawal appended to the ledger adds its own payload. */
  lemma UtilsBalanceAppendPayload(es: seq<LedgerEntry>, e: LedgerEntry, d: int)
    requires !e.data.Reversal? && NoReversalOf(es, e.id)
    ensures UtilsBalance(es + [e], d) == UtilsBalance(es, d) + OwnDelta(e.data, d)
  {
    UtilsBalanceAppend(es, e, d);
  }

  /**
   * A reversal appended to the ledger subtracts the payload of the entry it points to, whatever
   * that entry's `is_reverted` flag; one pointing at a missing id or at another reversal changes
   * nothing.
   */
  lemma UtilsBalanceAppendReversal(es: seq<LedgerEntry>, r: LedgerEntry, d: int)
    requires r.data.Reversal? && r.id !in Ids(es) && NoReversalOf(es, r.id)
    requires UniqueIds(es)
    ensures r.data.originalEntryId !in Ids(es) ==> UtilsBalance(es + [r], d) == UtilsBalance(es, d)
    ensures forall x | x in es && x.id == r.data.originalEntryId ::
      UtilsBalance(es + [r], d) == UtilsBalance(es, d) - OwnDelta(x.data, d)
    ensures forall x | x in es && x.id == r.data.originalEntryId && x.data.Reversal? ::
      UtilsBalance(es + [r], d) == UtilsBalance(es, d)
  {
    UtilsBalanceAppend(es, r, d);
    IdIndexContents(es);
    var o := r.data.originalEntryId;
    if o in Ids(es) {
      assert o != r.id;
      assert IdIndex(es + [r]) == IdIndex(es)[r.id := r] by {
        assert (es + [r])[..|es|] == es;
      }
      assert IdIndex(es)[o] in es;
    }
  }

  /** Appending an entry with a new id keeps ids unique. */
  lemma UniqueIdsAppend(es: seq<LedgerEntry>, x: LedgerEntry)
    requires UniqueIds(es) && x.id !in Ids(es)
    ensures UniqueIds(es + [x]) && Ids(es + [x]) == Ids(es) + {x.id}
  {
    assert forall y | y in es :: y.id in Ids(es);
    assert forall y | y in es + [x] :: y in es || y == x;
  }

  /**
   * An entry followed by a reversal of it nets to zero in `calculateBalance`, even though the
   * entry is flagged reverted.
   */
  lemma UtilsRevertNetsZero(es: seq<LedgerEntry>, x: LedgerEntry, r: LedgerEntry, d: int)
    requires UniqueIds(es) && !x.data.Reversal? && x.id !in Ids(es)
    requires r.data == Reversal(x.id) && r.id != x.id && r.id !in Ids(es)
    requires NoReversalOf(es, x.id) && NoReversalOf(es, r.id)
    ensures UtilsBalance(es + [x] + [r], d) == UtilsBalance(es, d)
  {
    UtilsBalanceAppendPayload(es, x, d);
    var ex := es + [x];
    UniqueIdsAppend(es, x);
    assert forall y | y in ex :: y in es || y == x;
    assert x in ex;
    UtilsBalanceAppendReversal(ex, r, d);
  }

  // ---------------------------------------------------------------------------------------
  // getDrawerBalance against calculateBalance

  lemma {:induction false} DrawerSumVsUtils(es: seq<LedgerEntry>, index: map<int, LedgerEntry>, d: int)
    requires forall x | x in es :: x.isReverted ==> !x.data.Reversal?
    ensures DrawerSum(es, index, d) == UtilsSum(es, index, d) - RevertedSum(es, d)
  {
    if es != [] {
      assert forall x | x in es[..|es| - 1] :: x in es;
      assert es[|es| - 1] in es;
      DrawerSumVsUtils(es[..|es| - 1], index, d);
    }
  }

  /**
   * When no reversal row is itself flagged reverted, `getDrawerBalance` equals
   * `calculateBalance` minus the payloads of the reverted entries: skipping a reverted entry
   * removes its payload, while the reversal that points at it still removes it again.
   */
  lemma DrawerVsUtils(es: seq<LedgerEntry>, d: int)
    requires forall x | x in es :: x.isReverted ==> !x.data.Reversal?
    ensures DrawerBalance(es, d) == UtilsBalance(es, d) - RevertedSum(es, d)
  {
    DrawerSumVsUtils(es, IdIndex(es), d);
  }

  /**
   * In `getDrawerBalance` a reverted entry together with its reversal contributes the negation
   * of the entry's payload, not zero.
   */
  lemma DrawerRevertedPair(es: seq<LedgerEntry>, x: LedgerEntry, r: LedgerEntry, d: int)
    requires forall y | y in es :: y.isReverted ==> !y.data.Reversal?
    requires UniqueIds(es) && !x.data.Reversal? && x.isReverted && x.id !in Ids(es)
    requires r.data == Reversal(x.id) && !r.isReverted && r.id != x.id && r.id !in Ids(es)
    requires NoReversalOf(es, x.id) && NoReversalOf(es, r.id)
    ensures DrawerBalance(es + [x] + [r], d) == DrawerBalance(es, d) - OwnDelta(x.data, d)
  {
    var all := es + [x] + [r];
    assert forall y | y in all :: y in es || y == x || y == r;
    DrawerVsUtils(all, d);
    DrawerVsUtils(es, d);
    UtilsRevertNetsZero(es, x, r, d);
    assert all[..|all| - 1] == es + [x];
    assert (es + [x])[..|es|] == es;
  }

  /**
   * A deposit of one 1000-yen note, flagged reverted, followed by its reversal: the drawer fold
   * skips the deposit and still subtracts it for the reversal, leaving minus one note, while
   * `calculateBalance` counts the pair as nothing.
   */
  lemma DrawerDoubleCountsRevert()
    ensures var es := [
        LedgerEntry(1, "pos", Deposit("owner", map[1000 := 1]), true),
        LedgerEntry(2, "pos", Reversal(1), false)
      ];
      DrawerBalance(es, 1000) == -1 && UtilsBalance(es, 1000) == 0
  {
    var es := [
      LedgerEntry(1, "pos", Deposit("owner", map[1000 := 1]), true),
      LedgerEntry(2, "pos", Reversal(1), false)
    ];
    assert es[..1] == [es[0]];
    assert es[..1][..0] == [];
    var index := IdIndex(es);
    assert IdIndex(es[..1]) == IdIndex([])[1 := es[0]];
    assert index == IdIndex(es[..1])[2 := es[1]];
    assert index[1] == es[0];
    assert DrawerSum(es[..1], index, 1000) == 0;
    assert UtilsSum(es[..1], index, 1000) == 1;
  }
}
