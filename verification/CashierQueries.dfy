/** What the cashier's screen shows: the newest transactions of two ledgers, merged
    from two truncated lists, and each table's balance, bucketed or added up. */
module CashierQueries {
  import opened Tables
  import opened Payments

  // ── Sorting ────────────────────────────────────────────────────────────────

  predicate Descending<T(!new)>(s: seq<T>, key: T -> int) { forall j, k :: 0 <= j < k < |s| ==> key(s[j]) >= key(s[k]) }

  lemma OneMoreInOrder<T(!new)>(s: seq<T>, k: nat, x: T, r: seq<T>, key: T -> int)
    requires k <= |s| && Descending(s, key) && |r| == |s| + 1
    requires (forall j :: 0 <= j < k ==> key(s[j]) >= key(x)) && (k < |s| ==> key(s[k]) < key(x))
    requires (forall i :: 0 <= i < k ==> r[i] == s[i]) && r[k] == x && forall i :: k < i < |r| ==> r[i] == s[i - 1]
    ensures Descending(r, key)
  {
    forall i, j | 0 <= i < j < |r| ensures key(r[i]) >= key(r[j]) {
      assert i < k < j && j - 1 > i ==> key(s[i]) >= key(s[j - 1]);
      assert i == k < j - 1 ==> key(s[k]) >= key(s[j - 1]);
    }
  }

  lemma InsertedAt<T(!new)>(s: seq<T>, k: nat, x: T, key: T -> int)
    requires k <= |s| && Descending(s, key) && (forall j :: 0 <= j < k ==> key(s[j]) >= key(x))
    requires (k < |s| ==> key(s[k]) < key(x))
    ensures Descending(s[..k] + [x] + s[k..], key) && multiset(s[..k] + [x] + s[k..]) == multiset(s) + multiset{x}
  {
    assert multiset(s[..k] + [x] + s[k..]) == multiset(s) + multiset{x} by { assert s == s[..k] + s[k..]; }
    OneMoreInOrder(s, k, x, s[..k] + [x] + s[k..], key);
  }

  method Insert<T(!new, ==)>(s: seq<T>, x: T, key: T -> int) returns (r: seq<T>)
    requires Descending(s, key)
    ensures multiset(r) == multiset(s) + multiset{x} && |r| == |s| + 1 && Descending(r, key)
  {
    var k := 0;
    while k < |s| && key(s[k]) >= key(x)
      invariant 0 <= k <= |s| && forall j :: 0 <= j < k ==> key(s[j]) >= key(x)
    {
      k := k + 1;
    }
    r := s[..k] + [x] + s[k..];
    InsertedAt(s, k, x, key);
  }

  /** list.sort(key=…, reverse=True); which of two equal keys comes first is left open. */
  method SortDescending<T(!new, ==)>(s: seq<T>, key: T -> int) returns (r: seq<T>)
    ensures multiset(r) == multiset(s) && |r| == |s| && Descending(r, key)
  {
    r := [];
    for n := 0 to |s|
      invariant multiset(r) == multiset(s[..n]) && |r| == n && Descending(r, key)
    {
      assert s[..n + 1] == s[..n] + [s[n]];
      r := Insert(r, s[n], key);
    }
    assert s[..|s|] == s;
  }

  // ── Recent transactions ────────────────────────────────────────────────────

  datatype Transaction =
    | Collection(settlement: nat, table: Option<int>, tender: Tender, amount: int, actor: int, at: int)
    | Refunding(refund: nat, settlement: nat, amount: int, actor: int, at: int)

  function At(): Transaction -> int { (t: Transaction) => t.at }

  /** The first `limit` of a newest-first listing of everything, whichever way ties
      fall: what is left out is never newer than what is shown. */
  ghost predicate NewestOf(shown: seq<Transaction>, rest: seq<Transaction>, all: seq<Transaction>, limit: nat) {
    && multiset(all) == multiset(shown) + multiset(rest)
    && Descending(shown, At())
    && |shown| == (if |all| < limit then |all| else limit)
    && forall x, y :: x in shown && y in rest ==> x.at >= y.at
  }

  /** ORDER BY at DESC LIMIT :limit */
  method QueryNewest(rows: seq<Transaction>, limit: nat) returns (shown: seq<Transaction>)
    ensures exists rest :: NewestOf(shown, rest, rows, limit)
  {
    var sorted := SortDescending(rows, At());
    var n := if |sorted| < limit then |sorted| else limit;
    shown := sorted[..n];
    assert sorted == sorted[..n] + sorted[n..];
    assert NewestOf(shown, sorted[n..], rows, limit);
  }

  function AtLeast(t: int): Transaction -> int { (x: Transaction) => if x.at >= t then 1 else 0 }

  lemma {:induction false} AtMostAll(s: seq<Transaction>, t: int)
    ensures 0 <= Sum(s, AtLeast(t)) <= |s|
  {
    if |s| > 0 { AtMostAll(s[..|s| - 1], t); }
  }

  /** In a newest-first list whose i-th entry is older than t, at most i are as new. */
  lemma {:induction false} FewAreNewer(s: seq<Transaction>, i: nat, t: int)
    requires Descending(s, At()) && i < |s| && s[i].at < t
    ensures Sum(s, AtLeast(t)) <= i
  {
    assert s == s[..i] + s[i..];
    SumConcat(s[..i], s[i..], AtLeast(t));
    forall j | 0 <= j < |s[i..]| ensures AtLeast(t)(s[i..][j]) == 0 {
      assert At()(s[i]) >= At()(s[i..][j]);
    }
    SumZero(s[i..], AtLeast(t));
    AtMostAll(s[..i], t);
  }

  lemma {:induction false} AllAreNewer(s: seq<Transaction>, t: int)
    requires forall x :: x in s ==> x.at >= t
    ensures Sum(s, AtLeast(t)) == |s|
  {
    if |s| > 0 {
      assert s[|s| - 1] in s;
      AllAreNewer(s[..|s| - 1], t);
    }
  }

  /** A full list that ends where something was left out has `limit` entries at least
      as new, so nothing older survives the cut of any merge it takes part in. */
  lemma LeftOutIsOlder(shown: seq<Transaction>, rest: seq<Transaction>, all: seq<Transaction>, other: seq<Transaction>,
                       merged: seq<Transaction>, limit: nat, i: nat, y: Transaction)
    requires NewestOf(shown, rest, all, limit) && y in rest
    requires multiset(merged) == multiset(shown + other) && Descending(merged, At())
    requires i < |merged| && i < limit
    ensures merged[i].at >= y.at
  {
    if merged[i].at < y.at {
      assert |multiset(all)| == |shown| + |rest|;
      FewAreNewer(merged, i, y.at);
      SumPermuted(merged, shown + other, AtLeast(y.at));
      SumConcat(shown, other, AtLeast(y.at));
      AllAreNewer(shown, y.at);
      AtMostAll(other, y.at);
    }
  }

  /** Nothing shown is older than anything left out, of either ledger or of the cut. */
  lemma ShownIsNewest(a: seq<Transaction>, shownA: seq<Transaction>, restA: seq<Transaction>, b: seq<Transaction>,
                      shownB: seq<Transaction>, restB: seq<Transaction>, merged: seq<Transaction>, limit: nat, i: nat,
                      y: Transaction)
    requires NewestOf(shownA, restA, a, limit) && NewestOf(shownB, restB, b, limit)
    requires multiset(merged) == multiset(shownA) + multiset(shownB) && Descending(merged, At())
    requires i < |merged| && i < limit && (y in merged[i..] || y in restA || y in restB)
    ensures merged[i].at >= y.at
  {
    assert multiset(shownA + shownB) == multiset(merged) && multiset(shownB + shownA) == multiset(merged);
    if y in restA {
      LeftOutIsOlder(shownA, restA, a, shownB, merged, limit, i, y);
    } else if y in restB {
      LeftOutIsOlder(shownB, restB, b, shownA, merged, limit, i, y);
    } else {
      var j :| i <= j < |merged| && merged[j] == y;
      assert i < j ==> At()(merged[i]) >= At()(merged[j]);
    }
  }

  function Cut(merged: seq<Transaction>, limit: nat): nat { if |merged| < limit then |merged| else limit }

  lemma NothingIsLost(a: seq<Transaction>, shownA: seq<Transaction>, restA: seq<Transaction>, b: seq<Transaction>,
                      shownB: seq<Transaction>, restB: seq<Transaction>, merged: seq<Transaction>, n: nat)
    requires multiset(a) == multiset(shownA) + multiset(restA) && multiset(b) == multiset(shownB) + multiset(restB)
    requires multiset(merged) == multiset(shownA) + multiset(shownB) && n <= |merged|
    ensures multiset(a + b) == multiset(merged[..n]) + multiset(merged[n..] + restA + restB)
  {
    var cut, tail := merged[..n], merged[n..];
    assert merged == cut + tail;
    assert multiset(cut + tail) == multiset(cut) + multiset(tail);
    assert multiset(tail + restA + restB) == multiset(tail) + multiset(restA) + multiset(restB);
    calc {
      multiset(a + b);
      multiset(a) + multiset(b);
      multiset(shownA) + multiset(shownB) + (multiset(restA) + multiset(restB));
      multiset(merged) + (multiset(restA) + multiset(restB));
      multiset(cut) + multiset(tail) + (multiset(restA) + multiset(restB));
      multiset(cut) + (multiset(tail) + multiset(restA) + multiset(restB));
    }
  }

  lemma LengthsAddUp(a: seq<Transaction>, shownA: seq<Transaction>, restA: seq<Transaction>, b: seq<Transaction>,
                     shownB: seq<Transaction>, restB: seq<Transaction>, merged: seq<Transaction>, limit: nat)
    requires NewestOf(shownA, restA, a, limit) && NewestOf(shownB, restB, b, limit)
    requires multiset(merged) == multiset(shownA) + multiset(shownB)
    ensures Cut(merged, limit) == if |a + b| < limit then |a + b| else limit
  {
    assert |merged| == |multiset(merged)| == |shownA| + |shownB|;
    assert |a| == |multiset(a)| == |shownA| + |restA| && |b| == |multiset(b)| == |shownB| + |restB|;
  }

  /** The truncated merge is exact: merging the newest `limit` of each ledger and
      cutting at `limit` gives the newest `limit` of both ledgers together. */
  lemma TruncatedMergeIsExact(a: seq<Transaction>, shownA: seq<Transaction>, restA: seq<Transaction>,
                              b: seq<Transaction>, shownB: seq<Transaction>, restB: seq<Transaction>,
                              merged: seq<Transaction>, limit: nat)
    requires NewestOf(shownA, restA, a, limit) && NewestOf(shownB, restB, b, limit)
    requires multiset(merged) == multiset(shownA) + multiset(shownB) && Descending(merged, At())
    ensures NewestOf(merged[..Cut(merged, limit)], merged[Cut(merged, limit)..] + restA + restB, a + b, limit)
  {
    var n := Cut(merged, limit);
    var shown, rest := merged[..n], merged[n..] + restA + restB;
    NothingIsLost(a, shownA, restA, b, shownB, restB, merged, n);
    LengthsAddUp(a, shownA, restA, b, shownB, restB, merged, limit);
    forall x, y | x in shown && y in rest ensures x.at >= y.at {
      var i :| 0 <= i < n && merged[i] == x;
      assert y in merged[n..] ==> y in merged[i..];
      ShownIsNewest(a, shownA, restA, b, shownB, restB, merged, limit, i, y);
    }
    forall j, k | 0 <= j < k < n ensures At()(shown[j]) >= At()(shown[k]) { assert At()(merged[j]) >= At()(merged[k]); }
  }

  /** The store's rows of each ledger, as the screen shows them. */
  function Collections(ss: seq<Settlement>, store: int, n: nat): seq<Transaction>
    requires n <= |ss|
  {
    if n == 0 then []
    else
      var front, s := Collections(ss, store, n - 1), ss[n - 1];
      if s.store == store then front + [Collection(n - 1, s.table, s.tender, s.gross, s.cashier, s.at)] else front
  }

  function Refundings(rs: seq<Refund>, store: int, n: nat): seq<Transaction>
    requires n <= |rs|
  {
    if n == 0 then []
    else
      var front, r := Refundings(rs, store, n - 1), rs[n - 1];
      if r.store == store then front + [Refunding(n - 1, r.settlement, r.amount, r.refundedBy, r.at)] else front
  }

  /** A row of the store's own ledgers, as the screen describes it. */
  predicate Belongs(b: Books, store: int, t: Transaction) {
    match t
    case Collection(id, table, tender, amount, actor, at) =>
      && id < |b.settlements| && b.settlements[id].store == store && b.settlements[id].table == table
      && b.settlements[id].tender == tender && b.settlements[id].gross == amount
      && b.settlements[id].cashier == actor && b.settlements[id].at == at
    case Refunding(id, settlement, amount, actor, at) =>
      && id < |b.refunds| && b.refunds[id].store == store && b.refunds[id].settlement == settlement
      && b.refunds[id].amount == amount && b.refunds[id].refundedBy == actor && b.refunds[id].at == at
  }

  lemma {:induction false} CollectionsAre(ss: seq<Settlement>, store: int, n: nat, t: Transaction)
    requires n <= |ss|
    ensures t in Collections(ss, store, n) <==>
              && t.Collection? && t.settlement < n
              && var s := ss[t.settlement];
                 s.store == store && t == Collection(t.settlement, s.table, s.tender, s.gross, s.cashier, s.at)
    ensures multiset(Collections(ss, store, n))[t] <= 1
  {
    if n > 0 { CollectionsAre(ss, store, n - 1, t); }
  }

  lemma {:induction false} RefundingsAre(rs: seq<Refund>, store: int, n: nat, t: Transaction)
    requires n <= |rs|
    ensures t in Refundings(rs, store, n) <==>
              && t.Refunding? && t.refund < n
              && var r := rs[t.refund];
                 r.store == store && t == Refunding(t.refund, r.settlement, r.amount, r.refundedBy, r.at)
    ensures multiset(Refundings(rs, store, n))[t] <= 1
  {
    if n > 0 { RefundingsAre(rs, store, n - 1, t); }
  }

  /** Both ledgers of the store, every row once. */
  function Ledgers(b: Books, store: int): seq<Transaction> {
    Collections(b.settlements, store, |b.settlements|) + Refundings(b.refunds, store, |b.refunds|)
  }

  lemma LedgersAre(b: Books, store: int, t: Transaction)
    ensures multiset(Ledgers(b, store))[t] == if Belongs(b, store, t) then 1 else 0
  {
    CollectionsAre(b.settlements, store, |b.settlements|, t);
    RefundingsAre(b.refunds, store, |b.refunds|, t);
  }

  /** The screen, whatever it leaves out: rows of the store's ledgers, each at most
      once, newest first, as many as asked for or all there are. */
  lemma ShownAreTheStoresNewest(b: Books, store: int, shown: seq<Transaction>, older: seq<Transaction>, limit: nat,
                                t: Transaction)
    requires NewestOf(shown, older, Ledgers(b, store), limit)
    ensures t in shown ==> Belongs(b, store, t) && multiset(shown)[t] == 1
    ensures Belongs(b, store, t) && t !in shown ==>
              |shown| == limit && forall i :: 0 <= i < |shown| ==> shown[i].at >= t.at
  {
    LedgersAre(b, store, t);
    assert multiset(Ledgers(b, store))[t] == multiset(shown)[t] + multiset(older)[t];
    if Belongs(b, store, t) && t !in shown {
      assert t in multiset(older);
      assert |multiset(Ledgers(b, store))| == |shown| + |older|;
      forall i | 0 <= i < |shown| ensures shown[i].at >= t.at { assert shown[i] in shown; }
    }
  }

  method RecentTransactions(b: Books, store: int, limit: nat) returns (txns: seq<Transaction>)
    ensures exists older :: NewestOf(txns, older, Ledgers(b, store), limit)
    ensures forall i, j :: 0 <= i < j < |txns| ==> txns[i].at >= txns[j].at
    ensures forall t :: t in txns ==> Belongs(b, store, t) && multiset(txns)[t] == 1
    ensures forall t :: Belongs(b, store, t) && t !in txns ==>
              |txns| == limit && forall i :: 0 <= i < |txns| ==> txns[i].at >= t.at
  {
    var collected := Collections(b.settlements, store, |b.settlements|);
    var returned := Refundings(b.refunds, store, |b.refunds|);
    var settlements := QueryNewest(collected, limit);
    var refunds := QueryNewest(returned, limit);
    var merged := SortDescending(settlements + refunds, At());
    ghost var restA :| NewestOf(settlements, restA, collected, limit);
    ghost var restB :| NewestOf(refunds, restB, returned, limit);
    TruncatedMergeIsExact(collected, settlements, restA, returned, refunds, restB, merged, limit);
    txns := merged[..Cut(merged, limit)];
    ghost var older := merged[Cut(merged, limit)..] + restA + restB;
    assert NewestOf(txns, older, Ledgers(b, store), limit);
    forall i, j | 0 <= i < j < |txns| ensures txns[i].at >= txns[j].at { assert At()(txns[i]) >= At()(txns[j]); }
    forall t
      ensures t in txns ==> Belongs(b, store, t) && multiset(txns)[t] == 1
      ensures Belongs(b, store, t) && t !in txns ==>
                |txns| == limit && forall i :: 0 <= i < |txns| ==> txns[i].at >= t.at
    {
      ShownAreTheStoresNewest(b, store, txns, older, limit, t);
    }
  }

  // ── Open tables ────────────────────────────────────────────────────────────

  /** An order of the table that has not been cancelled. */
  predicate OnTable(o: Order, store: int, table: int) { o.store == store && !o.cancelled && o.table == Some(table) }

  predicate OpenOn(o: Order, store: int, table: int) { OnTable(o, store, table) && o.Outstanding() > 0 }

  /** Ids of the table's open orders, oldest id first. */
  function OpenIds(orders: seq<Order>, store: int, table: int, n: nat): (ids: seq<nat>)
    requires n <= |orders|
    ensures forall k :: 0 <= k < |ids| ==> ids[k] < n && OpenOn(orders[ids[k]], store, table)
  {
    if n == 0 then []
    else
      var front := OpenIds(orders, store, table, n - 1);
      if OpenOn(orders[n - 1], store, table) then front + [n - 1] else front
  }

  function OwedBy(orders: seq<Order>): nat -> int { (k: nat) => if k < |orders| then orders[k].Outstanding() else 0 }

  function ValueOf(orders: seq<Order>): nat -> int { (k: nat) => if k < |orders| then orders[k].total else 0 }

  function PaidOn(orders: seq<Order>): nat -> int { (k: nat) => if k < |orders| then orders[k].NetPaid() else 0 }

  datatype OpenTable = OpenTable(table: int, openOrders: nat, gross: int, paid: int, remaining: int, oldest: int)

  function Age(): OpenTable -> int { (t: OpenTable) => -t.oldest }

  /** The summary of a table: its open orders only. */
  ghost predicate Summarises(t: OpenTable, orders: seq<Order>, created: seq<int>, store: int)
    requires |created| == |orders|
  {
    var ids := OpenIds(orders, store, t.table, |orders|);
    && ids != [] && t.openOrders == |ids|
    && t.gross == Sum(ids, ValueOf(orders)) && t.paid == Sum(ids, PaidOn(orders))
    && t.remaining == Sum(ids, OwedBy(orders))
    && (exists k :: k in ids && created[k] == t.oldest) && (forall k :: k in ids ==> t.oldest <= created[k])
  }

  /** buckets.setdefault(t, []) */
  function BucketOf(buckets: map<int, seq<nat>>, t: int): seq<nat> { if t in buckets then buckets[t] else [] }

  /** Each table's open orders among the first n; tables without any have no bucket. */
  ghost predicate Bucketed(buckets: map<int, seq<nat>>, orders: seq<Order>, store: int, n: nat)
    requires n <= |orders|
  {
    forall t :: BucketOf(buckets, t) == OpenIds(orders, store, t, n) && (t in buckets ==> buckets[t] != [])
  }

  lemma BucketStep(buckets: map<int, seq<nat>>, orders: seq<Order>, store: int, n: nat, t: int)
    requires n < |orders| && Bucketed(buckets, orders, store, n) && OpenOn(orders[n], store, t)
    ensures Bucketed(buckets[t := BucketOf(buckets, t) + [n]], orders, store, n + 1)
  {
    var more := buckets[t := BucketOf(buckets, t) + [n]];
    forall x ensures BucketOf(more, x) == OpenIds(orders, store, x, n + 1) && (x in more ==> more[x] != []) {
      assert BucketOf(buckets, x) == OpenIds(orders, store, x, n);
    }
  }

  lemma BucketSkip(buckets: map<int, seq<nat>>, orders: seq<Order>, store: int, n: nat)
    requires n < |orders| && Bucketed(buckets, orders, store, n) && forall t :: !OpenOn(orders[n], store, t)
    ensures Bucketed(buckets, orders, store, n + 1)
  {
    forall x
      ensures BucketOf(buckets, x) == OpenIds(orders, store, x, n + 1) && (x in buckets ==> buckets[x] != [])
    {
      assert BucketOf(buckets, x) == OpenIds(orders, store, x, n);
    }
  }

  method Bucket(orders: seq<Order>, store: int) returns (buckets: map<int, seq<nat>>)
    ensures Bucketed(buckets, orders, store, |orders|)
  {
    buckets := map[];
    for n := 0 to |orders|
      invariant Bucketed(buckets, orders, store, n)
    {
      var o := orders[n];
      if o.store == store && !o.cancelled && o.table.Some? && o.Outstanding() > 0 {
        BucketStep(buckets, orders, store, n, o.table.value);
        buckets := buckets[o.table.value := BucketOf(buckets, o.table.value) + [n]];
      } else {
        BucketSkip(buckets, orders, store, n);
      }
    }
  }

  /** min(o.created_at for o in group) */
  method Oldest(created: seq<int>, group: seq<nat>) returns (oldest: int)
    requires group != [] && forall j :: 0 <= j < |group| ==> group[j] < |created|
    ensures (exists k :: k in group && created[k] == oldest) && (forall k :: k in group ==> oldest <= created[k])
  {
    oldest := created[group[0]];
    for n := 0 to |group|
      invariant exists k :: k in group && created[k] == oldest
      invariant forall j :: 0 <= j < n ==> oldest <= created[group[j]]
    {
      if created[group[n]] < oldest { oldest := created[group[n]]; }
    }
  }

  method Summarise(orders: seq<Order>, created: seq<int>, store: int, table: int, group: seq<nat>)
    returns (t: OpenTable)
    requires |created| == |orders| && group == OpenIds(orders, store, table, |orders|) && group != []
    ensures t.table == table && Summarises(t, orders, created, store)
  {
    var gross, paid, remaining := 0, 0, 0;
    for n := 0 to |group|
      invariant gross == Sum(group[..n], ValueOf(orders)) && paid == Sum(group[..n], PaidOn(orders))
      invariant remaining == Sum(group[..n], OwedBy(orders))
    {
      SumStep(group, n, ValueOf(orders));
      SumStep(group, n, PaidOn(orders));
      SumStep(group, n, OwedBy(orders));
      var o := orders[group[n]];
      gross, paid, remaining := gross + o.total, paid + o.NetPaid(), remaining + o.Outstanding();
    }
    assert group[..|group|] == group;
    var oldest := Oldest(created, group);
    t := OpenTable(table, |group|, gross, paid, remaining, oldest);
  }

  function Titled(table: int): OpenTable -> int { (t: OpenTable) => if t.table == table then 1 else 0 }

  /** One summary for each bucket. */
  method SummariseAll(orders: seq<Order>, created: seq<int>, store: int, buckets: map<int, seq<nat>>)
    returns (found: seq<OpenTable>)
    requires |created| == |orders|
    requires forall t :: t in buckets ==> buckets[t] == OpenIds(orders, store, t, |orders|) && buckets[t] != []
    ensures forall t :: t in found ==> Summarises(t, orders, created, store)
    ensures forall id :: Sum(found, Titled(id)) == if id in buckets then 1 else 0
  {
    found := [];
    var left := buckets.Keys;
    while exists id :: id in left
      invariant left <= buckets.Keys
      invariant forall t :: t in found ==> Summarises(t, orders, created, store)
      invariant forall id :: Sum(found, Titled(id)) == if id in buckets.Keys - left then 1 else 0
      decreases |left|
    {
      var id :| id in left;
      var t := Summarise(orders, created, store, id, buckets[id]);
      forall x ensures Sum(found + [t], Titled(x)) == Sum(found, Titled(x)) + if x == id then 1 else 0 {
        SumAppend(found, t, Titled(x));
      }
      found := found + [t];
      left := left - {id};
    }
  }

  lemma {:induction false} BucketsByTable(buckets: map<int, seq<nat>>, orders: seq<Order>, store: int)
    requires Bucketed(buckets, orders, store, |orders|)
    ensures forall t :: t in buckets ==> buckets[t] == OpenIds(orders, store, t, |orders|) && buckets[t] != []
    ensures forall t :: t in buckets <==> OpenIds(orders, store, t, |orders|) != []
  {
    forall t
      ensures t in buckets ==> buckets[t] == OpenIds(orders, store, t, |orders|) && buckets[t] != []
      ensures t in buckets <==> OpenIds(orders, store, t, |orders|) != []
    {
      assert BucketOf(buckets, t) == OpenIds(orders, store, t, |orders|);
    }
  }

  /** Every table with an unpaid balance, once, oldest order first. */
  method ListOpenTables(orders: seq<Order>, created: seq<int>, store: int) returns (tables: seq<OpenTable>)
    requires |created| == |orders|
    ensures forall t :: t in tables ==> Summarises(t, orders, created, store)
    ensures forall id :: Sum(tables, Titled(id)) == if OpenIds(orders, store, id, |orders|) != [] then 1 else 0
    ensures forall j, k :: 0 <= j < k < |tables| ==> tables[j].oldest <= tables[k].oldest
  {
    var buckets := Bucket(orders, store);
    BucketsByTable(buckets, orders, store);
    var found := SummariseAll(orders, created, store, buckets);
    tables := SortDescending(found, Age());
    forall id ensures Sum(tables, Titled(id)) == Sum(found, Titled(id)) { SumPermuted(tables, found, Titled(id)); }
    forall t ensures t in tables <==> t in found { assert t in multiset(tables) <==> t in multiset(found); }
    forall j, k | 0 <= j < k < |tables| ensures tables[j].oldest <= tables[k].oldest {
      assert Age()(tables[j]) >= Age()(tables[k]);
    }
  }

  /** What is still to pay on an order: nothing once it is covered. */
  function StillOwed(o: Order): int { if o.paid - o.refunded < o.total then o.total - (o.paid - o.refunded) else 0 }

  /** A live order of this table of this store. */
  predicate Live(o: Order, store: int, table: int) { o.store == store && o.table == Some(table) && !o.cancelled }

  function Owing(store: int, table: int, f: Order -> int): Order -> int {
    (o: Order) => if Live(o, store, table) && StillOwed(o) > 0 then f(o) else 0
  }

  function AtId(orders: seq<Order>, f: Order -> int): nat -> int {
    (k: nat) => if k < |orders| then f(orders[k]) else 0
  }

  lemma {:induction false} OverOpenIds(orders: seq<Order>, store: int, table: int, n: nat, f: Order -> int)
    requires n <= |orders|
    ensures Sum(OpenIds(orders, store, table, n), AtId(orders, f)) == Sum(orders[..n], Owing(store, table, f))
  {
    if n > 0 {
      var last: nat := n - 1;
      OverOpenIds(orders, store, table, last, f);
      SumStep(orders, last, Owing(store, table, f));
      if OpenOn(orders[last], store, table) {
        SumAppend(OpenIds(orders, store, table, last), last, AtId(orders, f));
      }
    }
  }

  lemma {:induction false} CountIds(ids: seq<nat>, f: nat -> int)
    requires forall k :: 0 <= k < |ids| ==> f(ids[k]) == 1
    ensures Sum(ids, f) == |ids|
  {
    if |ids| > 0 { CountIds(ids[..|ids| - 1], f); }
  }

  lemma OverTheOpenOrders(orders: seq<Order>, store: int, table: int, g: nat -> int, f: Order -> int)
    requires forall k: nat :: k < |orders| ==> g(k) == f(orders[k])
    ensures var ids := OpenIds(orders, store, table, |orders|);
            Sum(ids, g) == Sum(orders, Owing(store, table, f))
  {
    var ids := OpenIds(orders, store, table, |orders|);
    OverOpenIds(orders, store, table, |orders|, f);
    SumPointwise(ids, g, ids, AtId(orders, f));
    assert orders[..|orders|] == orders;
  }

  lemma {:induction false} EveryOpenOrderIsListed(orders: seq<Order>, store: int, table: int, n: nat, k: nat)
    requires k < n <= |orders| && Live(orders[k], store, table) && StillOwed(orders[k]) > 0
    ensures k in OpenIds(orders, store, table, n)
  {
    if k < n - 1 { EveryOpenOrderIsListed(orders, store, table, n - 1, k); }
  }

  /** A listed table's figures are those of its live orders that still owe something, and
      of no others. */
  lemma {:induction false} ListedFiguresAre(t: OpenTable, orders: seq<Order>, created: seq<int>, store: int)
    requires |created| == |orders| && Summarises(t, orders, created, store)
    ensures t.openOrders == Sum(orders, Owing(store, t.table, (o: Order) => 1)) > 0
    ensures t.gross == Sum(orders, Owing(store, t.table, (o: Order) => o.total))
    ensures t.paid == Sum(orders, Owing(store, t.table, (o: Order) => o.paid - o.refunded))
    ensures t.remaining == Sum(orders, Owing(store, t.table, (o: Order) => StillOwed(o)))
    ensures exists k :: 0 <= k < |orders| && Live(orders[k], store, t.table) && StillOwed(orders[k]) > 0
                        && created[k] == t.oldest
    ensures forall k :: 0 <= k < |orders| && Live(orders[k], store, t.table) && StillOwed(orders[k]) > 0 ==>
              t.oldest <= created[k]
  {
    var ids := OpenIds(orders, store, t.table, |orders|);
    OverTheOpenOrders(orders, store, t.table, (k: nat) => 1, (o: Order) => 1);
    CountIds(ids, (k: nat) => 1);
    OverTheOpenOrders(orders, store, t.table, ValueOf(orders), (o: Order) => o.total);
    OverTheOpenOrders(orders, store, t.table, PaidOn(orders), (o: Order) => o.paid - o.refunded);
    OverTheOpenOrders(orders, store, t.table, OwedBy(orders), (o: Order) => StillOwed(o));
    forall k | 0 <= k < |orders| && Live(orders[k], store, t.table) && StillOwed(orders[k]) > 0 ensures k in ids {
      EveryOpenOrderIsListed(orders, store, t.table, |orders|, k);
    }
  }

  /** A table is on the list exactly when a live order of it still owes something. */
  lemma {:induction false} ListedExactlyWhenOwing(orders: seq<Order>, store: int, table: int)
    ensures OpenIds(orders, store, table, |orders|) != [] <==>
              exists k :: 0 <= k < |orders| && Live(orders[k], store, table) && StillOwed(orders[k]) > 0
  {
    var ids := OpenIds(orders, store, table, |orders|);
    if ids != [] { assert Live(orders[ids[0]], store, table) && StillOwed(orders[ids[0]]) > 0; }
    if k :| 0 <= k < |orders| && Live(orders[k], store, table) && StillOwed(orders[k]) > 0 {
      EveryOpenOrderIsListed(orders, store, table, |orders|, k);
    }
  }

  // ── One table's bill ───────────────────────────────────────────────────────

  datatype Line = Line(order: nat, total: int, paid: int, remaining: int, payable: bool)

  datatype Bill = Bill(table: int, gross: int, paid: int, remaining: int, lines: seq<Line>)

  function ValueOnTable(store: int, table: int): Order -> int {
    (o: Order) => if OnTable(o, store, table) then o.total else 0
  }

  function PaidOnTable(store: int, table: int): Order -> int {
    (o: Order) => if OnTable(o, store, table) then o.NetPaid() else 0
  }

  function OwedOnTable(store: int, table: int): Order -> int {
    (o: Order) => if OnTable(o, store, table) then o.Outstanding() else 0
  }

  function CountOnTable(store: int, table: int): Order -> int {
    (o: Order) => if OnTable(o, store, table) then 1 else 0
  }

  function LineOf(orders: seq<Order>, k: nat): Line
    requires k < |orders|
  {
    var o := orders[k];
    Line(k, o.total, o.NetPaid(), o.Outstanding(), !o.cancelled && o.Outstanding() > 0)
  }

  /** One line for each order of the table that was not cancelled, paid or not. */
  ghost predicate Billed(lines: seq<Line>, orders: seq<Order>, store: int, table: int, n: nat)
    requires n <= |orders|
  {
    && |lines| == Sum(orders[..n], CountOnTable(store, table))
    && forall l :: l in lines <==> exists k :: 0 <= k < n && OnTable(orders[k], store, table) && l == LineOf(orders, k)
  }

  function Earliness(created: seq<int>): Line -> int {
    (l: Line) => if l.order < |created| then -created[l.order] else 0
  }

  lemma BillStep(lines: seq<Line>, orders: seq<Order>, store: int, table: int, n: nat)
    requires n < |orders| && Billed(lines, orders, store, table, n)
    ensures var more := if OnTable(orders[n], store, table) then lines + [LineOf(orders, n)] else lines;
            Billed(more, orders, store, table, n + 1)
  {
    SumStep(orders, n, CountOnTable(store, table));
  }

  function LiveOn(store: int, table: int, f: Order -> int): Order -> int {
    (o: Order) => if Live(o, store, table) then f(o) else 0
  }

  /** A bill's lines are the table's live orders, paid or not, each once with its own
      figures, and its totals are theirs. */
  lemma BillFiguresAre(lines: seq<Line>, orders: seq<Order>, store: int, table: int)
    requires Billed(lines, orders, store, table, |orders|)
    ensures |lines| == Sum(orders, (o: Order) => if Live(o, store, table) then 1 else 0)
    ensures forall l :: l in lines <==>
              && l.order < |orders| && Live(orders[l.order], store, table)
              && var o := orders[l.order];
                 l == Line(l.order, o.total, o.paid - o.refunded, StillOwed(o), StillOwed(o) > 0)
    ensures Sum(orders, ValueOnTable(store, table)) == Sum(orders, LiveOn(store, table, (o: Order) => o.total))
    ensures Sum(orders, PaidOnTable(store, table)) ==
              Sum(orders, LiveOn(store, table, (o: Order) => o.paid - o.refunded))
    ensures Sum(orders, OwedOnTable(store, table)) == Sum(orders, LiveOn(store, table, (o: Order) => StillOwed(o)))
  {
    assert orders[..|orders|] == orders;
    SumPointwise(orders, CountOnTable(store, table), orders, (o: Order) => if Live(o, store, table) then 1 else 0);
    SumPointwise(orders, ValueOnTable(store, table), orders, LiveOn(store, table, (o: Order) => o.total));
    SumPointwise(orders, PaidOnTable(store, table), orders, LiveOn(store, table, (o: Order) => o.paid - o.refunded));
    SumPointwise(orders, OwedOnTable(store, table), orders, LiveOn(store, table, (o: Order) => StillOwed(o)));
    forall l
      ensures l in lines <==>
                && l.order < |orders| && Live(orders[l.order], store, table)
                && var o := orders[l.order];
                   l == Line(l.order, o.total, o.paid - o.refunded, StillOwed(o), StillOwed(o) > 0)
    {
      if l.order < |orders| && Live(orders[l.order], store, table) && l == LineOf(orders, l.order) {
        assert OnTable(orders[l.order], store, table);
      }
    }
  }

  predicate OldestFirst(lines: seq<Line>, created: seq<int>) {
    && (forall j :: 0 <= j < |lines| ==> lines[j].order < |created|)
    && forall j, k :: 0 <= j < k < |lines| ==> created[lines[j].order] <= created[lines[k].order]
  }

  lemma LinesOldestFirst(lines: seq<Line>, orders: seq<Order>, created: seq<int>, store: int, table: int)
    requires |created| == |orders| && Billed(lines, orders, store, table, |orders|)
    requires Descending(lines, Earliness(created))
    ensures OldestFirst(lines, created)
  {
    forall j | 0 <= j < |lines| ensures lines[j].order < |created| { assert lines[j] in lines; }
    forall j, k | 0 <= j < k < |lines| ensures created[lines[j].order] <= created[lines[k].order] {
      assert Earliness(created)(lines[j]) >= Earliness(created)(lines[k]);
    }
  }

  /** Every order of the table, oldest first, and their totals. */
  method GetTableBill(site: Site, orders: seq<Order>, created: seq<int>, store: int, table: int)
    returns (bill: Option<Bill>)
    requires |created| == |orders|
    ensures bill.None? <==> table !in site.tables || site.tables[table] != store
    ensures bill.Some? ==>
              && bill.value.table == table && Billed(bill.value.lines, orders, store, table, |orders|)
              && Descending(bill.value.lines, Earliness(created))
              && OldestFirst(bill.value.lines, created)
              && bill.value.gross == Sum(orders, ValueOnTable(store, table))
              && bill.value.paid == Sum(orders, PaidOnTable(store, table))
              && bill.value.remaining == Sum(orders, OwedOnTable(store, table))
  {
    if table !in site.tables || site.tables[table] != store { return None; }
    var found: seq<Line> := [];
    var gross, paid, remaining := 0, 0, 0;
    for n := 0 to |orders|
      invariant gross == Sum(orders[..n], ValueOnTable(store, table))
      invariant paid == Sum(orders[..n], PaidOnTable(store, table))
      invariant remaining == Sum(orders[..n], OwedOnTable(store, table))
      invariant Billed(found, orders, store, table, n)
    {
      SumStep(orders, n, ValueOnTable(store, table));
      SumStep(orders, n, PaidOnTable(store, table));
      SumStep(orders, n, OwedOnTable(store, table));
      BillStep(found, orders, store, table, n);
      var o := orders[n];
      if OnTable(o, store, table) {
        found := found + [LineOf(orders, n)];
        gross, paid, remaining := gross + o.total, paid + o.NetPaid(), remaining + o.Outstanding();
      }
    }
    assert orders[..|orders|] == orders;
    var lines := SortDescending(found, Earliness(created));
    forall l ensures l in lines <==> l in found { assert l in multiset(lines) <==> l in multiset(found); }
    LinesOldestFirst(lines, orders, created, store, table);
    bill := Some(Bill(table, gross, paid, remaining, lines));
  }

  /** The two screens agree: a table's bucketed balance is its bill's balance. */
  lemma {:induction false} BalancesAgree(orders: seq<Order>, store: int, table: int, n: nat)
    requires n <= |orders|
    ensures Sum(OpenIds(orders, store, table, n), OwedBy(orders)) == Sum(orders[..n], OwedOnTable(store, table))
  {
    if n > 0 {
      BalancesAgree(orders, store, table, n - 1);
      SumStep(orders, n - 1, OwedOnTable(store, table));
      if OpenOn(orders[n - 1], store, table) {
        var last: nat := n - 1;
        SumAppend(OpenIds(orders, store, table, last), last, OwedBy(orders));
      }
    }
  }

  lemma {:induction false} ListedBalanceIsTheBill(orders: seq<Order>, created: seq<int>, store: int, t: OpenTable)
    requires |created| == |orders| && Summarises(t, orders, created, store)
    ensures t.remaining == Sum(orders, OwedOnTable(store, t.table)) && t.remaining > 0
  {
    BalancesAgree(orders, store, t.table, |orders|);
    assert orders[..|orders|] == orders;
    var ids := OpenIds(orders, store, t.table, |orders|);
    SumNonneg(ids, OwedBy(orders));
    assert OwedBy(orders)(ids[0]) > 0;
  }

  /** A table is off the list exactly when its bill has nothing left to pay. */
  lemma {:induction false} UnlistedExactlyWhenPaid(orders: seq<Order>, store: int, table: int)
    ensures OpenIds(orders, store, table, |orders|) == [] <==> Sum(orders, OwedOnTable(store, table)) == 0
  {
    BalancesAgree(orders, store, table, |orders|);
    assert orders[..|orders|] == orders;
    var ids := OpenIds(orders, store, table, |orders|);
    SumNonneg(ids, OwedBy(orders));
    if ids != [] { assert OwedBy(orders)(ids[0]) > 0; }
  }
}
