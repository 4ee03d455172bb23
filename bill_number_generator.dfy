/**
  * Sequential bill numbers per store (src/utils/billNumberGenerator.js). Each store has a counter
  * document `counters/bills_<storeId>` holding the last number issued; generating a bill number
  * reads it, adds one and writes the new value back, and a reset writes zero.
  *
  * The counter documents are a map from document id to count held by a `BillCounters` object;
  * an absent key is an absent document, and a document without a count reads as 0.
  */
module BillNumberGenerator {
  import opened Wrappers
  import opened Text
  import opened Seqs

  const DefaultStoreId: string := "default"
  const DefaultStoreName: string := "STORE"

  /** The id of a store's counter document. */
  function CounterKey(storeId: string): string {
    "bills_" + storeId
  }

  /** Distinct stores have distinct counter documents. */
  lemma CounterKeyInjective(a: string, b: string)
    requires CounterKey(a) == CounterKey(b)
    ensures a == b
  {
    assert a == CounterKey(a)[6..];
    assert b == CounterKey(b)[6..];
  }

  /** `getCurrentBillCount(storeId)`: the stored count, or 0 without a document. */
  function StoredCount(counters: map<string, nat>, storeId: string): nat {
    if CounterKey(storeId) in counters then counters[CounterKey(storeId)] else 0
  }

  /** The counters after one bill number is issued for a store: its count goes up by one and every
      other store's count stays. */
  function Incremented(counters: map<string, nat>, storeId: string): (r: map<string, nat>)
    ensures StoredCount(r, storeId) == StoredCount(counters, storeId) + 1
    ensures forall other :: other != storeId ==> StoredCount(r, other) == StoredCount(counters, other)
  {
    var r := counters[CounterKey(storeId) := StoredCount(counters, storeId) + 1];
    forall other | other != storeId
      ensures StoredCount(r, other) == StoredCount(counters, other)
    {
      if CounterKey(other) == CounterKey(storeId) {
        CounterKeyInjective(other, storeId);
      }
    }
    r
  }

  /** The counters after `resetBillCounter(storeId)`: that store's count is 0, every other store's
      count stays. */
  function ResetCount(counters: map<string, nat>, storeId: string): (r: map<string, nat>)
    ensures StoredCount(r, storeId) == 0
    ensures forall other :: other != storeId ==> StoredCount(r, other) == StoredCount(counters, other)
  {
    var r := counters[CounterKey(storeId) := 0];
    forall other | other != storeId
      ensures StoredCount(r, other) == StoredCount(counters, other)
    {
      if CounterKey(other) == CounterKey(storeId) {
        CounterKeyInjective(other, storeId);
      }
    }
    r
  }

  /** `BILLNO` followed by the number padded with zeros to at least four digits. */
  function BillNumber(n: nat): (r: string)
    ensures |r| >= 10 && r[..6] == "BILLNO" && AllDigits(r[6..])
    ensures DecimalValue(r[6..]) == n
    ensures n < 10000 <==> |r| == 10
  {
    ZeroPadShape(n, 4);
    var r := "BILLNO" + ZeroPad(n, 4);
    assert r[6..] == ZeroPad(n, 4);
    r
  }

  /** Different numbers give different bill numbers; numbers of five digits and more keep all of
      their digits. */
  lemma BillNumberInjective(a: nat, b: nat)
    requires BillNumber(a) == BillNumber(b)
    ensures a == b
  {
  }

  /** The counters after k bill numbers are issued for one store. */
  function Generations(counters: map<string, nat>, storeId: string, k: nat): map<string, nat>
    decreases k
  {
    if k == 0 then counters else Incremented(Generations(counters, storeId, k - 1), storeId)
  }

  /** After k generations the count has gone up by k (so a fresh counter reads k), and every other
      store's count is unchanged. */
  lemma {:induction false} CountAfterGenerations(counters: map<string, nat>, storeId: string, k: nat)
    ensures StoredCount(Generations(counters, storeId, k), storeId) == StoredCount(counters, storeId) + k
    ensures forall other :: other != storeId ==>
      StoredCount(Generations(counters, storeId, k), other) == StoredCount(counters, other)
    decreases k
  {
    if k > 0 {
      CountAfterGenerations(counters, storeId, k - 1);
    }
  }

  /** After a reset, the next bill number is BILLNO0001. */
  lemma FirstAfterReset(counters: map<string, nat>, storeId: string)
    ensures BillNumber(StoredCount(ResetCount(counters, storeId), storeId) + 1) == "BILLNO0001"
  {
    assert DecimalDigits(1) == "1";
    assert Repeat('0', 3) == "000";
  }

  function NotSpace(c: char): bool { !IsSpace(c) }

  /** The prefix of a store bill number: the store name without whitespace, its first three
      characters, in upper case. */
  function StorePrefix(storeName: string): (p: string)
    ensures |p| <= 3
    ensures |p| == |Filter(storeName, NotSpace)| || |p| == 3
    ensures forall i :: 0 <= i < |p| ==> !IsLowerLetter(p[i])
  {
    Upper(TakeFirst(Filter(storeName, NotSpace), 3))
  }

  /** The prefix holds no whitespace and comes from the name: each of its characters is a
      character of the name, upper-cased. */
  lemma StorePrefixFromName(storeName: string)
    ensures forall i :: 0 <= i < |StorePrefix(storeName)| ==>
      exists j :: 0 <= j < |storeName| && !IsSpace(storeName[j]) && StorePrefix(storeName)[i] == UpperChar(storeName[j])
  {
    var kept := Filter(storeName, NotSpace);
    var first := TakeFirst(kept, 3);
    FilterMembers(storeName, NotSpace);
    forall i | 0 <= i < |StorePrefix(storeName)|
      ensures exists j :: 0 <= j < |storeName| && !IsSpace(storeName[j]) && StorePrefix(storeName)[i] == UpperChar(storeName[j])
    {
      assert first[i] == kept[i];
      var j :| 0 <= j < |storeName| && storeName[j] == kept[i];
    }
  }

  /** `generateStoreBillNumber`'s result: prefix, `BILL`, and the number padded to four digits. */
  function StoreBillNumber(storeName: string, n: nat): (r: string)
    ensures |r| >= |StorePrefix(storeName)| + 8 && r[..|StorePrefix(storeName)|] == StorePrefix(storeName)
  {
    StorePrefix(storeName) + "BILL" + ZeroPad(n, 4)
  }

  /** A prefix, `BILL` and the number padded to four digits, taken apart again. */
  lemma PrefixedNumberParts(prefix: string, n: nat)
    ensures var r, p := prefix + "BILL" + ZeroPad(n, 4), |prefix|;
      |r| >= p + 4 && r[..p] == prefix && r[p..p + 4] == "BILL" && r[p + 4..] == ZeroPad(n, 4)
  {
    var r, p := prefix + "BILL" + ZeroPad(n, 4), |prefix|;
    assert r[p + 4..] == ZeroPad(n, 4);
    assert r[..p] == prefix;
    assert r[p..p + 4] == "BILL";
  }

  /** After the prefix come `BILL` and at least four digits denoting the number. */
  lemma StoreBillNumberShape(storeName: string, n: nat)
    ensures var r, p := StoreBillNumber(storeName, n), |StorePrefix(storeName)|;
      |r| >= p + 8 && r[..p] == StorePrefix(storeName) && r[p..p + 4] == "BILL" &&
      AllDigits(r[p + 4..]) && DecimalValue(r[p + 4..]) == n
  {
    PrefixedNumberParts(StorePrefix(storeName), n);
    ZeroPadShape(n, 4);
  }

  /** Store bill numbers of one store are distinct for distinct numbers. */
  lemma StoreBillNumberInjective(storeName: string, a: nat, b: nat)
    requires StoreBillNumber(storeName, a) == StoreBillNumber(storeName, b)
    ensures a == b
  {
    PrefixedNumberParts(StorePrefix(storeName), a);
    PrefixedNumberParts(StorePrefix(storeName), b);
    ZeroPadInjective(a, b, 4);
  }

  /** The counter documents of every store. */
  class BillCounters {
    var counters: map<string, nat>

    constructor()
      ensures counters == map[]
    {
      counters := map[];
    }

    /** `getCurrentBillCount(storeId)`, with the `default` store when no id is given. */
    method GetCurrentBillCount(storeId: Option<string>) returns (count: nat)
      ensures count == StoredCount(counters, storeId.GetOr(DefaultStoreId))
    {
      var key := CounterKey(storeId.GetOr(DefaultStoreId));
      if key in counters {
        count := counters[key];
      } else {
        count := 0;
      }
    }

    /** `generateNextBillNumber(storeId)`: the stored count plus one becomes both the new count and
        the number of the bill. */
    method GenerateNextBillNumber(storeId: Option<string>) returns (billNumber: string)
      modifies this
      ensures counters == Incremented(old(counters), storeId.GetOr(DefaultStoreId))
      ensures billNumber == BillNumber(StoredCount(counters, storeId.GetOr(DefaultStoreId)))
    {
      var id := storeId.GetOr(DefaultStoreId);
      var key := CounterKey(id);
      var nextNumber := 1;
      if key in counters {
        nextNumber := counters[key] + 1;
      }
      counters := counters[key := nextNumber];
      assert counters == Incremented(old(counters), id);
      billNumber := BillNumber(nextNumber);
    }

    /** `resetBillCounter(storeId)`: the count becomes 0 and true is returned; a failing write is
        caught, returns false and leaves the counters as they were. */
    method ResetBillCounter(storeId: Option<string>, writeFails: bool) returns (ok: bool)
      modifies this
      ensures ok <==> !writeFails
      ensures ok ==> counters == ResetCount(old(counters), storeId.GetOr(DefaultStoreId))
      ensures !ok ==> counters == old(counters)
    {
      if writeFails {
        return false;
      }
      counters := counters[CounterKey(storeId.GetOr(DefaultStoreId)) := 0];
      ok := true;
    }

    /** `generateStoreBillNumber(storeId, storeName)`: the same counter as
        `GenerateNextBillNumber`, with the store prefix in front of `BILL`. */
    method GenerateStoreBillNumber(storeId: Option<string>, storeName: Option<string>) returns (billNumber: string)
      modifies this
      ensures counters == Incremented(old(counters), storeId.GetOr(DefaultStoreId))
      ensures billNumber == StoreBillNumber(storeName.GetOr(DefaultStoreName), StoredCount(counters, storeId.GetOr(DefaultStoreId)))
    {
      var id := storeId.GetOr(DefaultStoreId);
      var key := CounterKey(id);
      var nextNumber := 1;
      if key in counters {
        nextNumber := counters[key] + 1;
      }
      counters := counters[key := nextNumber];
      assert counters == Incremented(old(counters), id);
      billNumber := StoreBillNumber(storeName.GetOr(DefaultStoreName), nextNumber);
    }
  }
}
