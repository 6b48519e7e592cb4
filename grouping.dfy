/**
 * pandas' `groupby(key)` over the journal: one group per distinct key, in
 * ascending key order (pandas sorts group keys by default), holding the number
 * of trades, their P&L sum and the number of winning trades (P&L above zero).
 */
module Grouping {
  import opened Trades
  import opened Sums

  datatype Group<K> = Group(key: K, count: nat, total: int, wins: nat)

  function Count<K>(g: Group<K>): int { g.count }
  function Total<K>(g: Group<K>): int { g.total }
  function Wins<K>(g: Group<K>): int { g.wins }

  /** The group of the single trade `t` under key `k`. */
  function Single<K>(k: K, t: Trade): Group<K>
  {
    Group(k, 1, t.pnl, WinFlag(t))
  }

  /** Group `g` with trade `t` added to it. */
  function Bump<K>(g: Group<K>, t: Trade): Group<K>
  {
    Group(g.key, g.count + 1, g.total + t.pnl, g.wins + WinFlag(t))
  }

  /** The keys of the groups. */
  function Keys<K>(gs: seq<Group<K>>): set<K>
  {
    if gs == [] then {} else {gs[0].key} + Keys(gs[1..])
  }

  /** The distinct keys of the trades. */
  function KeySet<K>(ts: seq<Trade>, key: Trade -> K): set<K>
  {
    if ts == [] then {} else {key(ts[0])} + KeySet(ts[1..], key)
  }

  /** Strictly ascending keys: in particular no key appears twice. */
  predicate KeysAscending<K>(gs: seq<Group<K>>, lt: (K, K) -> bool)
  {
    forall i, j :: 0 <= i < j < |gs| ==> lt(gs[i].key, gs[j].key)
  }

  /** The number, P&L sum and winners of the trades whose key is `k`. */
  function CountKey<K(==)>(ts: seq<Trade>, key: Trade -> K, k: K): nat
  {
    if ts == [] then 0 else (if key(ts[0]) == k then 1 else 0) + CountKey(ts[1..], key, k)
  }

  function TotalKey<K(==)>(ts: seq<Trade>, key: Trade -> K, k: K): int
  {
    if ts == [] then 0 else (if key(ts[0]) == k then ts[0].pnl else 0) + TotalKey(ts[1..], key, k)
  }

  function WinsKey<K(==)>(ts: seq<Trade>, key: Trade -> K, k: K): nat
  {
    if ts == [] then 0 else (if key(ts[0]) == k then WinFlag(ts[0]) else 0) + WinsKey(ts[1..], key, k)
  }

  /** The count, P&L sum and winners the groups hold for key `k`. */
  function CountIn<K(==)>(gs: seq<Group<K>>, k: K): int
  {
    if gs == [] then 0 else (if gs[0].key == k then gs[0].count else 0) + CountIn(gs[1..], k)
  }

  function TotalIn<K(==)>(gs: seq<Group<K>>, k: K): int
  {
    if gs == [] then 0 else (if gs[0].key == k then gs[0].total else 0) + TotalIn(gs[1..], k)
  }

  function WinsIn<K(==)>(gs: seq<Group<K>>, k: K): int
  {
    if gs == [] then 0 else (if gs[0].key == k then gs[0].wins else 0) + WinsIn(gs[1..], k)
  }

  /**
   * Adds trade `t` under key `k` to groups kept in ascending key order: to the
   * group of `k` when there is one, otherwise as a new group in its place.
   */
  function Add<K(==)>(gs: seq<Group<K>>, t: Trade, k: K, lt: (K, K) -> bool): seq<Group<K>>
  {
    if gs == [] then [Single(k, t)]
    else if gs[0].key == k then [Bump(gs[0], t)] + gs[1..]
    else if lt(k, gs[0].key) then [Single(k, t)] + gs
    else [gs[0]] + Add(gs[1..], t, k, lt)
  }

  lemma {:induction false} AddKeys<K>(gs: seq<Group<K>>, t: Trade, k: K, lt: (K, K) -> bool)
    ensures Keys(Add(gs, t, k, lt)) == Keys(gs) + {k}
  {
    if gs != [] {
      var r := Add(gs, t, k, lt);
      if gs[0].key == k {
        assert r[1..] == gs[1..];
      } else if lt(k, gs[0].key) {
        assert r[1..] == gs;
      } else {
        AddKeys(gs[1..], t, k, lt);
        assert r[1..] == Add(gs[1..], t, k, lt);
      }
    }
  }

  lemma {:induction false} AddSorted<K(!new)>(gs: seq<Group<K>>, t: Trade, k: K, lt: (K, K) -> bool)
    requires StrictTotalOrder(lt) && KeysAscending(gs, lt)
    ensures KeysAscending(Add(gs, t, k, lt), lt)
  {
    if gs != [] && gs[0].key != k && !lt(k, gs[0].key) {
      var tail := Add(gs[1..], t, k, lt);
      AddSorted(gs[1..], t, k, lt);
      AddKeys(gs[1..], t, k, lt);
      forall j | 0 <= j < |tail| ensures lt(gs[0].key, tail[j].key) {
        KeyAt(tail, j);
        if tail[j].key != k {
          KeyIndex(gs[1..], tail[j].key);
        }
      }
    }
  }

  lemma {:induction false} KeyAt<K>(gs: seq<Group<K>>, j: nat)
    requires j < |gs|
    ensures gs[j].key in Keys(gs)
  {
    if j > 0 { KeyAt(gs[1..], j - 1); }
  }

  lemma {:induction false} KeyIndex<K>(gs: seq<Group<K>>, x: K)
    requires x in Keys(gs)
    ensures exists j :: 0 <= j < |gs| && gs[j].key == x
  {
    if gs[0].key != x {
      KeyIndex(gs[1..], x);
      var j :| 0 <= j < |gs[1..]| && gs[1..][j].key == x;
      assert gs[j + 1].key == x;
    }
  }

  lemma {:induction false} AddTallies<K>(gs: seq<Group<K>>, t: Trade, k: K, lt: (K, K) -> bool, x: K)
    ensures CountIn(Add(gs, t, k, lt), x) == CountIn(gs, x) + (if x == k then 1 else 0)
    ensures TotalIn(Add(gs, t, k, lt), x) == TotalIn(gs, x) + (if x == k then t.pnl else 0)
    ensures WinsIn(Add(gs, t, k, lt), x) == WinsIn(gs, x) + (if x == k then WinFlag(t) else 0)
  {
    if gs != [] {
      var r := Add(gs, t, k, lt);
      if gs[0].key == k {
        assert r[1..] == gs[1..];
      } else if lt(k, gs[0].key) {
        assert r[1..] == gs;
      } else {
        AddTallies(gs[1..], t, k, lt, x);
        assert r[1..] == Add(gs[1..], t, k, lt);
      }
    }
  }

  lemma {:induction false} AddSums<K>(gs: seq<Group<K>>, t: Trade, k: K, lt: (K, K) -> bool)
    ensures Sum(Add(gs, t, k, lt), Count) == Sum(gs, Count) + 1
    ensures Sum(Add(gs, t, k, lt), Total) == Sum(gs, Total) + t.pnl
    ensures Sum(Add(gs, t, k, lt), Wins) == Sum(gs, Wins) + WinFlag(t)
  {
    if gs != [] {
      var r := Add(gs, t, k, lt);
      if gs[0].key == k {
        assert r[1..] == gs[1..];
      } else if lt(k, gs[0].key) {
        assert r[1..] == gs;
      } else {
        AddSums(gs[1..], t, k, lt);
        assert r[1..] == Add(gs[1..], t, k, lt);
      }
    } else {
      assert Add(gs, t, k, lt)[1..] == [];
    }
  }

  lemma {:induction false} AddPositive<K>(gs: seq<Group<K>>, t: Trade, k: K, lt: (K, K) -> bool)
    requires forall g | g in gs :: g.count >= 1
    ensures forall g | g in Add(gs, t, k, lt) :: g.count >= 1
  {
    if gs != [] && gs[0].key != k && !lt(k, gs[0].key) {
      AddPositive(gs[1..], t, k, lt);
    }
  }

  /** Strictly ascending keys are distinct, so there are as many groups as keys. */
  lemma {:induction false} AscendingKeysCount<K(!new)>(gs: seq<Group<K>>, lt: (K, K) -> bool)
    requires StrictTotalOrder(lt) && KeysAscending(gs, lt)
    ensures |Keys(gs)| == |gs|
  {
    if gs != [] {
      AscendingKeysCount(gs[1..], lt);
      if gs[0].key in Keys(gs[1..]) {
        KeyIndex(gs[1..], gs[0].key);
        assert false;
      }
    }
  }

  /** `groupby(key)`: groups in strictly ascending key order, none of them empty. */
  function GroupBy<K(==,!new)>(ts: seq<Trade>, key: Trade -> K, lt: (K, K) -> bool): (r: seq<Group<K>>)
    requires StrictTotalOrder(lt)
    ensures KeysAscending(r, lt)
    ensures forall g | g in r :: g.count >= 1
  {
    if ts == [] then []
    else
      var rest := GroupBy(ts[1..], key, lt);
      AddSorted(rest, ts[0], key(ts[0]), lt);
      AddPositive(rest, ts[0], key(ts[0]), lt);
      Add(rest, ts[0], key(ts[0]), lt)
  }

  /** The groups have exactly the distinct keys of the trades, once each. */
  lemma {:induction false} GroupByKeys<K(!new)>(ts: seq<Trade>, key: Trade -> K, lt: (K, K) -> bool)
    requires StrictTotalOrder(lt)
    ensures Keys(GroupBy(ts, key, lt)) == KeySet(ts, key)
    ensures |GroupBy(ts, key, lt)| == |KeySet(ts, key)|
  {
    if ts != [] {
      GroupByKeys(ts[1..], key, lt);
      AddKeys(GroupBy(ts[1..], key, lt), ts[0], key(ts[0]), lt);
    }
    AscendingKeysCount(GroupBy(ts, key, lt), lt);
  }

  /** For every key, the groups tally the number, P&L sum and winners of its trades. */
  lemma {:induction false} GroupByTallies<K(!new)>(ts: seq<Trade>, key: Trade -> K, lt: (K, K) -> bool, x: K)
    requires StrictTotalOrder(lt)
    ensures CountIn(GroupBy(ts, key, lt), x) == CountKey(ts, key, x)
    ensures TotalIn(GroupBy(ts, key, lt), x) == TotalKey(ts, key, x)
    ensures WinsIn(GroupBy(ts, key, lt), x) == WinsKey(ts, key, x)
  {
    if ts != [] {
      GroupByTallies(ts[1..], key, lt, x);
      AddTallies(GroupBy(ts[1..], key, lt), ts[0], key(ts[0]), lt, x);
    }
  }

  /** The group counts, P&L sums and winners add up to those of the whole journal. */
  lemma {:induction false} GroupBySums<K(!new)>(ts: seq<Trade>, key: Trade -> K, lt: (K, K) -> bool)
    requires StrictTotalOrder(lt)
    ensures Sum(GroupBy(ts, key, lt), Count) == |ts|
    ensures Sum(GroupBy(ts, key, lt), Total) == Sum(ts, Pnl)
    ensures Sum(GroupBy(ts, key, lt), Wins) == CountWins(ts)
  {
    if ts != [] {
      GroupBySums(ts[1..], key, lt);
      AddSums(GroupBy(ts[1..], key, lt), ts[0], key(ts[0]), lt);
    }
  }

  /** With distinct keys, the tallies for a group's key are that group's own. */
  lemma {:induction false} TalliesOfRow<K(!new)>(gs: seq<Group<K>>, lt: (K, K) -> bool, i: nat)
    requires StrictTotalOrder(lt) && KeysAscending(gs, lt) && i < |gs|
    ensures CountIn(gs, gs[i].key) == gs[i].count
    ensures TotalIn(gs, gs[i].key) == gs[i].total
    ensures WinsIn(gs, gs[i].key) == gs[i].wins
  {
    if i == 0 {
      AbsentKey(gs[1..], lt, gs[0].key);
    } else {
      TalliesOfRow(gs[1..], lt, i - 1);
    }
  }

  lemma {:induction false} AbsentKey<K(!new)>(gs: seq<Group<K>>, lt: (K, K) -> bool, k: K)
    requires StrictTotalOrder(lt)
    requires forall j :: 0 <= j < |gs| ==> lt(k, gs[j].key)
    ensures CountIn(gs, k) == 0 && TotalIn(gs, k) == 0 && WinsIn(gs, k) == 0
  {
    if gs != [] {
      AbsentKey(gs[1..], lt, k);
    }
  }

  /** Between none and all of a key's trades are winners. */
  lemma {:induction false} WinsWithinCount<K>(ts: seq<Trade>, key: Trade -> K, k: K)
    ensures 0 <= WinsKey(ts, key, k) <= CountKey(ts, key, k)
  {
    if ts != [] { WinsWithinCount(ts[1..], key, k); }
  }

  /** Row `i` of `groupby(key)` holds exactly the trades of its key. */
  lemma GroupRow<K(!new)>(ts: seq<Trade>, key: Trade -> K, lt: (K, K) -> bool, i: nat)
    requires StrictTotalOrder(lt) && i < |GroupBy(ts, key, lt)|
    ensures var g := GroupBy(ts, key, lt)[i];
      && g.key in KeySet(ts, key)
      && g.count == CountKey(ts, key, g.key) >= 1
      && g.total == TotalKey(ts, key, g.key)
      && g.wins == WinsKey(ts, key, g.key)
      && 0 <= g.wins <= g.count
  {
    var gs := GroupBy(ts, key, lt);
    assert gs[i] in gs;
    KeyAt(gs, i);
    GroupByKeys(ts, key, lt);
    GroupByTallies(ts, key, lt, gs[i].key);
    TalliesOfRow(gs, lt, i);
    WinsWithinCount(ts, key, gs[i].key);
  }

  /** Every distinct key of the trades is the key of a row of `groupby(key)`. */
  lemma GroupOfKey<K(!new)>(ts: seq<Trade>, key: Trade -> K, lt: (K, K) -> bool, k: K) returns (i: nat)
    requires StrictTotalOrder(lt) && k in KeySet(ts, key)
    ensures i < |GroupBy(ts, key, lt)| && GroupBy(ts, key, lt)[i].key == k
  {
    GroupByKeys(ts, key, lt);
    KeyIndex(GroupBy(ts, key, lt), k);
    i :| i < |GroupBy(ts, key, lt)| && GroupBy(ts, key, lt)[i].key == k;
  }
}
