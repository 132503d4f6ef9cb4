/// Card sync: `exchangePublicToken`, `upsertCreditCard` and `getCreditCardAccounts`.
/// The aggregator's answers (token exchange, accounts, liabilities) are parameters.
/// Amounts are whole cents.
module PlaidController {
  import opened Common
  import opened Tables
  import opened Ledger
  import opened Http

  /** A numeric field of an aggregator snapshot: missing, null, or a number. */
  datatype JsNumber = Undefined | Null | Number(value: int)

  datatype Balances = Balances(current: JsNumber, limit: JsNumber, available: JsNumber)

  /** An account of the snapshot; `kind` is the aggregator's `type`. */
  datatype Account = Account(accountId: string, kind: string, name: string, mask: Option<string>, balances: Balances)

  /** A credit entry of the liabilities snapshot. */
  datatype CreditLiability = CreditLiability(
    accountId: Option<string>,
    accountIds: Option<seq<string>>,
    lastStatementBalance: JsNumber,
    minimumPaymentAmount: JsNumber,
    nextPaymentDueDate: Option<string>)

  /** The liabilities object; `credit` is None when it is not an array. */
  datatype Liabilities = Liabilities(credit: Option<seq<CreditLiability>>)

  datatype TokenExchange = Exchanged(accessToken: string, itemId: string) | ExchangeFailed

  /** The card rows and the id counter a sync advances. */
  datatype CardTable = CardTable(rows: seq<CardRow>, nextId: int)

  // ------------------------------------------------------------ derived fields

  /** The number a field stands for when missing and null both count as zero. */
  function Amount(x: JsNumber): int {
    if x.Number? then x.value else 0
  }

  /** A destructuring default `= 0`: it replaces a missing value, not a null one. */
  function DefaultZero(x: JsNumber): JsNumber {
    if x.Undefined? then Number(0) else x
  }

  /** A defaulted value as an arithmetic operand: null converts to zero. */
  function Operand(x: JsNumber): int
    requires !x.Undefined?
  {
    match x
    case Null => 0
    case Number(n) => n
  }

  /** A defaulted value as a column: null stays NULL. */
  function Column(x: JsNumber): Option<int>
    requires !x.Undefined?
  {
    match x
    case Null => None
    case Number(n) => Some(n)
  }

  /** `x || 0`. */
  function OrZero(x: JsNumber): int {
    if x.Number? && x.value != 0 then x.value else 0
  }

  /** The columns `upsertCreditCard` writes for one account and its matched liability. */
  function DeriveCard(userId: int, acc: Account, liab: Option<CreditLiability>): (v: CardValues)
    ensures v.userId == userId && v.name == acc.name && v.mask == acc.mask
    ensures acc.balances.available.Number? ==> v.availableBalance == acc.balances.available.value
    ensures !acc.balances.available.Number? ==>
      v.availableBalance == Amount(acc.balances.limit) - Amount(acc.balances.current)
    ensures v.currentBalance == (if acc.balances.current.Null? then None else Some(Amount(acc.balances.current)))
    ensures v.creditLimit == (if acc.balances.limit.Null? then None else Some(Amount(acc.balances.limit)))
    ensures liab.None? ==> v.totalDue == 0 && v.minDue == 0 && v.nextDueDate.None?
    ensures liab.Some? ==>
      && v.totalDue == Amount(liab.value.lastStatementBalance)
      && v.minDue == Amount(liab.value.minimumPaymentAmount)
      && v.nextDueDate == (if Present(liab.value.nextPaymentDueDate) then liab.value.nextPaymentDueDate else None)
  {
    var current := DefaultZero(acc.balances.current);
    var limit := DefaultZero(acc.balances.limit);
    var totalDue := if liab.Some? then OrZero(liab.value.lastStatementBalance) else 0;
    var minDue := if liab.Some? then OrZero(liab.value.minimumPaymentAmount) else 0;
    var nextDue := if liab.Some? && Present(liab.value.nextPaymentDueDate) then liab.value.nextPaymentDueDate else None;
    var available := if acc.balances.available.Undefined? || acc.balances.available.Null?
      then Operand(limit) - Operand(current)
      else acc.balances.available.value;
    CardValues(userId, acc.name, acc.mask, Column(current), available, Column(limit), totalDue, minDue, nextDue)
  }

  /** With current 300, limit 1000 and no available balance, 700 is stored. */
  lemma AvailableBalanceExample(userId: int, name: string)
    ensures DeriveCard(userId, Account("acc", "credit", name, None, Balances(Number(300), Number(1000), Null)), None)
      .availableBalance == 700
  {
  }

  // ------------------------------------------------------------ liability match

  /** The liability's own id is the account's, or its id list contains it. */
  function LiabilityFor(accountId: string): CreditLiability -> bool {
    (l: CreditLiability) =>
      (l.accountId.Some? && l.accountId.value == accountId) || (l.accountIds.Some? && accountId in l.accountIds.value)
  }

  /** The first credit liability for the account; none when there are no liabilities or `credit`
      is not an array. */
  function MatchLiability(liabilities: Option<Liabilities>, accountId: string): (r: Option<CreditLiability>)
    ensures (liabilities.None? || liabilities.value.credit.None?) ==> r.None?
    ensures r.Some? ==>
      var credit := liabilities.value.credit.value;
      exists i :: 0 <= i < |credit| && credit[i] == r.value && LiabilityFor(accountId)(credit[i])
        && forall j :: 0 <= j < i ==> !LiabilityFor(accountId)(credit[j])
    ensures liabilities.Some? && liabilities.value.credit.Some? && r.None? ==>
      forall l :: l in liabilities.value.credit.value ==> !LiabilityFor(accountId)(l)
  {
    if liabilities.None? || liabilities.value.credit.None? then None
    else
      var credit := liabilities.value.credit.value;
      match FirstIndex(credit, LiabilityFor(accountId))
      case None => None
      case Some(i) => Some(credit[i])
  }

  // --------------------------------------------------------------- card upsert

  predicate IsCreditAccount(a: Account) { a.kind == "credit" }

  /** `accounts.filter(a => a.type === "credit")`. */
  function CreditAccounts(accounts: seq<Account>): (r: seq<Account>)
    ensures forall a :: a in r <==> a in accounts && a.kind == "credit"
    ensures forall a :: multiset(r)[a] == if IsCreditAccount(a) then multiset(accounts)[a] else 0
  {
    Where(accounts, IsCreditAccount)
  }

  /** Update-or-insert keyed on the external account id: an existing row keeps its id and gets
      the new columns and timestamp; otherwise a row with a fresh id is appended. */
  function UpsertCard(t: CardTable, userId: int, acc: Account, liab: Option<CreditLiability>, now: int): CardTable {
    var values := DeriveCard(userId, acc, liab);
    match FirstIndex(t.rows, CardWithAccount(acc.accountId))
    case Some(i) => CardTable(t.rows[i := t.rows[i].(values := values, updatedAt := Some(now))], t.nextId)
    case None => CardTable(t.rows + [CardRow(t.nextId, acc.accountId, values, None)], t.nextId + 1)
  }

  /** One upsert per credit account, in order, each with the account's matched liability. */
  function SyncCards(t: CardTable, userId: int, credit: seq<Account>, liabilities: Option<Liabilities>,
                     now: int): CardTable
    decreases |credit|
  {
    if credit == [] then t
    else
      var last := credit[|credit| - 1];
      UpsertCard(SyncCards(t, userId, credit[..|credit| - 1], liabilities, now), userId, last,
                 MatchLiability(liabilities, last.accountId), now)
  }

  ghost predicate ValidCards(t: CardTable) {
    OneCardPerAccount(t.rows) && CardIdsBelow(t.rows, t.nextId) && CardIdsUnique(t.rows)
  }

  /** An upsert keeps one row per account; the account's row then holds the derived columns;
      rows of other accounts are untouched and no row changes account. */
  lemma UpsertCardKeyed(t: CardTable, userId: int, acc: Account, liab: Option<CreditLiability>, now: int)
    requires ValidCards(t)
    ensures var r := UpsertCard(t, userId, acc, liab, now);
      && ValidCards(r)
      && t.nextId <= r.nextId
      && |t.rows| <= |r.rows|
      && (forall i :: 0 <= i < |t.rows| ==> r.rows[i].accountId == t.rows[i].accountId)
      && (forall i :: 0 <= i < |t.rows| && t.rows[i].accountId != acc.accountId ==> r.rows[i] == t.rows[i])
      && FirstIndex(r.rows, CardWithAccount(acc.accountId)).Some?
      && r.rows[FirstIndex(r.rows, CardWithAccount(acc.accountId)).value].values == DeriveCard(userId, acc, liab)
    ensures var r := UpsertCard(t, userId, acc, liab, now);
      var k := FirstIndex(t.rows, CardWithAccount(acc.accountId));
      && |r.rows| == |t.rows| + (if k.Some? then 0 else 1)
      && (k.Some? ==> r.rows[k.value].id == t.rows[k.value].id && r.rows[k.value].updatedAt == Some(now))
      && (k.None? ==> r.rows[|t.rows|] == CardRow(t.nextId, acc.accountId, DeriveCard(userId, acc, liab), None))
  {
    var r := UpsertCard(t, userId, acc, liab, now);
    match FirstIndex(t.rows, CardWithAccount(acc.accountId))
    case Some(i) =>
      assert CardWithAccount(acc.accountId)(r.rows[i]);
      assert FirstIndex(r.rows, CardWithAccount(acc.accountId)) == Some(i) by {
        forall j | 0 <= j < i ensures !CardWithAccount(acc.accountId)(r.rows[j]) {
          assert r.rows[j] == t.rows[j];
        }
      }
    case None =>
      FirstIndexAppend(t.rows, r.rows[|t.rows|], CardWithAccount(acc.accountId));
  }

  /** Upserting the same account twice leaves as many rows as upserting it once, with the second
      call's columns and timestamp in the account's one row. */
  lemma UpsertCardTwice(t: CardTable, acc: Account, u1: int, l1: Option<CreditLiability>, n1: int,
                        u2: int, l2: Option<CreditLiability>, n2: int)
    requires ValidCards(t)
    ensures var once := UpsertCard(t, u1, acc, l1, n1);
      var twice := UpsertCard(once, u2, acc, l2, n2);
      && |twice.rows| == |once.rows| && twice.nextId == once.nextId
      && ValidCards(twice)
      && var k := FirstIndex(twice.rows, CardWithAccount(acc.accountId));
         k.Some? && twice.rows[k.value].values == DeriveCard(u2, acc, l2) && twice.rows[k.value].updatedAt == Some(n2)
  {
    var once := UpsertCard(t, u1, acc, l1, n1);
    UpsertCardKeyed(t, u1, acc, l1, n1);
    UpsertCardKeyed(once, u2, acc, l2, n2);
  }

  /** The whole sync keeps one row per account and unique ids, adds at most one row per credit
      account, never changes the account of a row, and leaves every row of any other account as it was. */
  lemma {:induction false} SyncCardsKeyed(t: CardTable, userId: int, credit: seq<Account>,
                                          liabilities: Option<Liabilities>, now: int)
    requires ValidCards(t)
    ensures var r := SyncCards(t, userId, credit, liabilities, now);
      && ValidCards(r)
      && |t.rows| <= |r.rows| <= |t.rows| + |credit|
      && (forall i :: 0 <= i < |t.rows| ==> r.rows[i].accountId == t.rows[i].accountId)
      && (forall i :: 0 <= i < |t.rows| && (forall a :: a in credit ==> a.accountId != t.rows[i].accountId) ==>
            r.rows[i] == t.rows[i])
    decreases |credit|
  {
    if credit != [] {
      var init, last := credit[..|credit| - 1], credit[|credit| - 1];
      assert credit == init + [last];
      var mid := SyncCards(t, userId, init, liabilities, now);
      SyncCardsKeyed(t, userId, init, liabilities, now);
      UpsertCardKeyed(mid, userId, last, MatchLiability(liabilities, last.accountId), now);
    }
  }

  /** Syncing a snapshot whose credit accounts all have rows already (a repeated sync) adds no
      row, hands out no id, and leaves each of those rows stamped with the sync's time. */
  lemma {:induction false} SyncCardsRefreshes(t: CardTable, userId: int, credit: seq<Account>,
                                              liabilities: Option<Liabilities>, now: int)
    requires ValidCards(t)
    requires forall a :: a in credit ==> FirstIndex(t.rows, CardWithAccount(a.accountId)).Some?
    ensures var r := SyncCards(t, userId, credit, liabilities, now);
      && |r.rows| == |t.rows| && r.nextId == t.nextId
      && forall a :: a in credit ==>
           && FirstIndex(r.rows, CardWithAccount(a.accountId)).Some?
           && r.rows[FirstIndex(r.rows, CardWithAccount(a.accountId)).value].updatedAt == Some(now)
    decreases |credit|
  {
    if credit != [] {
      var init, last := credit[..|credit| - 1], credit[|credit| - 1];
      assert credit == init + [last];
      var mid := SyncCards(t, userId, init, liabilities, now);
      var liab := MatchLiability(liabilities, last.accountId);
      var r := SyncCards(t, userId, credit, liabilities, now);
      assert r == UpsertCard(mid, userId, last, liab, now);
      SyncCardsRefreshes(t, userId, init, liabilities, now);
      SyncCardsKeyed(t, userId, init, liabilities, now);
      var key := CardWithAccount(last.accountId);
      var kt := FirstIndex(t.rows, key).value;
      assert key(mid.rows[kt]);
      var k := FirstIndex(mid.rows, key).value;
      UpsertCardKeyed(mid, userId, last, liab, now);
      assert FirstIndex(r.rows, key) == Some(k) by {
        forall j | 0 <= j < k ensures !key(r.rows[j]) {
          assert r.rows[j].accountId == mid.rows[j].accountId;
        }
        FirstIndexAt(r.rows, k, key);
      }
      forall a | a in credit
        ensures && FirstIndex(r.rows, CardWithAccount(a.accountId)).Some?
                && r.rows[FirstIndex(r.rows, CardWithAccount(a.accountId)).value].updatedAt == Some(now)
      {
        if a.accountId != last.accountId {
          assert a in init;
          RowOfOtherAccountKept(mid, userId, last, liab, now, a.accountId);
        }
      }
    }
  }

  /** After the sync every credit account of the snapshot has a row, and every row the sync added
      belongs to one of them. */
  lemma {:induction false} SyncCardsCovers(t: CardTable, userId: int, credit: seq<Account>,
                                           liabilities: Option<Liabilities>, now: int)
    requires ValidCards(t)
    ensures var r := SyncCards(t, userId, credit, liabilities, now);
      && (forall a :: a in credit ==> FirstIndex(r.rows, CardWithAccount(a.accountId)).Some?)
      && (forall i :: |t.rows| <= i < |r.rows| ==> exists a :: a in credit && a.accountId == r.rows[i].accountId)
    decreases |credit|
  {
    if credit != [] {
      var init, last := credit[..|credit| - 1], credit[|credit| - 1];
      assert credit == init + [last];
      var mid := SyncCards(t, userId, init, liabilities, now);
      var liab := MatchLiability(liabilities, last.accountId);
      var r := SyncCards(t, userId, credit, liabilities, now);
      assert r == UpsertCard(mid, userId, last, liab, now);
      assert ValidCards(mid) && |t.rows| <= |mid.rows| by { SyncCardsKeyed(t, userId, init, liabilities, now); }
      SyncCardsCovers(t, userId, init, liabilities, now);
      UpsertCardKeyed(mid, userId, last, liab, now);
      forall a | a in credit ensures FirstIndex(r.rows, CardWithAccount(a.accountId)).Some? {
        if a != last {
          assert a in init;
          var k := FirstIndex(mid.rows, CardWithAccount(a.accountId)).value;
          assert r.rows[k].accountId == a.accountId;
          assert CardWithAccount(a.accountId)(r.rows[k]);
        }
      }
      forall i | |t.rows| <= i < |r.rows| ensures exists a :: a in credit && a.accountId == r.rows[i].accountId {
        if i < |mid.rows| {
          var a :| a in init && a.accountId == mid.rows[i].accountId;
          assert a in credit && a.accountId == r.rows[i].accountId;
        } else {
          assert last in credit && last.accountId == r.rows[i].accountId;
        }
      }
    }
  }

  /** After the sync, each credit account's row holds the columns derived from the last snapshot
      entry for that account, with that entry's matched liability. */
  lemma {:induction false} SyncCardsRowContents(t: CardTable, userId: int, credit: seq<Account>,
                                                liabilities: Option<Liabilities>, now: int)
    requires ValidCards(t)
    ensures var r := SyncCards(t, userId, credit, liabilities, now);
      forall j :: 0 <= j < |credit| && LastFor(credit, j) ==> HoldsDerived(r, userId, credit[j], liabilities)
    decreases |credit|
  {
    if credit != [] {
      var init, last := credit[..|credit| - 1], credit[|credit| - 1];
      assert credit == init + [last];
      var mid := SyncCards(t, userId, init, liabilities, now);
      assert ValidCards(mid) by { SyncCardsKeyed(t, userId, init, liabilities, now); }
      SyncCardsRowContents(t, userId, init, liabilities, now);
      forall j | 0 <= j < |credit| && LastFor(credit, j)
        ensures HoldsDerived(SyncCards(t, userId, credit, liabilities, now), userId, credit[j], liabilities)
      {
        RowContentsStep(mid, userId, init, last, liabilities, now, j);
      }
    }
  }

  /** One step of the sync: an entry that is the last for its account holds its derived columns
      after the upsert of `last`, given that the earlier entries held theirs before it. */
  lemma RowContentsStep(mid: CardTable, userId: int, init: seq<Account>, last: Account,
                        liabilities: Option<Liabilities>, now: int, j: int)
    requires ValidCards(mid)
    requires forall i :: 0 <= i < |init| && LastFor(init, i) ==> HoldsDerived(mid, userId, init[i], liabilities)
    requires 0 <= j <= |init| && LastFor(init + [last], j)
    ensures HoldsDerived(UpsertCard(mid, userId, last, MatchLiability(liabilities, last.accountId), now),
                         userId, (init + [last])[j], liabilities)
  {
    var credit := init + [last];
    if j < |init| {
      assert credit[j] == init[j];
      assert credit[|init|] == last;
      assert LastFor(init, j) by {
        forall m | j < m < |init| ensures init[m].accountId != init[j].accountId {
          assert init[m] == credit[m];
        }
      }
      HoldsDerivedKept(mid, userId, last, liabilities, now, init[j]);
    } else {
      UpsertCardKeyed(mid, userId, last, MatchLiability(liabilities, last.accountId), now);
    }
  }

  /** The account's row holds the columns derived from `a` and its matched liability. */
  ghost predicate HoldsDerived(t: CardTable, userId: int, a: Account, liabilities: Option<Liabilities>) {
    var k := FirstIndex(t.rows, CardWithAccount(a.accountId));
    k.Some? && t.rows[k.value].values == DeriveCard(userId, a, MatchLiability(liabilities, a.accountId))
  }

  lemma HoldsDerivedKept(t: CardTable, userId: int, last: Account, liabilities: Option<Liabilities>, now: int,
                         a: Account)
    requires ValidCards(t) && a.accountId != last.accountId && HoldsDerived(t, userId, a, liabilities)
    ensures HoldsDerived(UpsertCard(t, userId, last, MatchLiability(liabilities, last.accountId), now), userId, a, liabilities)
  {
    RowOfOtherAccountKept(t, userId, last, MatchLiability(liabilities, last.accountId), now, a.accountId);
  }

  /** The entry at `j` is the last one of the snapshot for its account. */
  ghost predicate LastFor(credit: seq<Account>, j: int)
    requires 0 <= j < |credit|
  {
    forall m :: j < m < |credit| ==> credit[m].accountId != credit[j].accountId
  }

  /** An upsert for one account leaves where, and with what, another account's row is found. */
  lemma RowOfOtherAccountKept(t: CardTable, userId: int, acc: Account, liab: Option<CreditLiability>, now: int,
                              other: string)
    requires ValidCards(t) && other != acc.accountId
    requires FirstIndex(t.rows, CardWithAccount(other)).Some?
    ensures var r := UpsertCard(t, userId, acc, liab, now);
      var k := FirstIndex(t.rows, CardWithAccount(other)).value;
      FirstIndex(r.rows, CardWithAccount(other)) == Some(k) && r.rows[k] == t.rows[k]
  {
    UpsertCardKeyed(t, userId, acc, liab, now);
    var r := UpsertCard(t, userId, acc, liab, now);
    var k := FirstIndex(t.rows, CardWithAccount(other)).value;
    forall j | 0 <= j < k ensures !CardWithAccount(other)(r.rows[j]) {
      assert r.rows[j].accountId == t.rows[j].accountId;
    }
    FirstIndexAt(r.rows, k, CardWithAccount(other));
  }

  /** `upsertCreditCard`: looks the account up by its external id, then updates that row or
      inserts one; returns the row's id. */
  method UpsertCreditCard(db: Db, userId: int, acc: Account, liab: Option<CreditLiability>, now: int)
    returns (id: int)
    requires db.Valid()
    modifies db`cards, db`nextId
    ensures db.Valid()
    ensures CardTable(db.cards, db.nextId) == UpsertCard(CardTable(old(db.cards), old(db.nextId)), userId, acc, liab, now)
    ensures FirstIndex(db.cards, CardWithAccount(acc.accountId)).Some?
    ensures id == db.cards[FirstIndex(db.cards, CardWithAccount(acc.accountId)).value].id
  {
    UpsertCardKeyed(CardTable(db.cards, db.nextId), userId, acc, liab, now);
    var values := DeriveCard(userId, acc, liab);
    var existing := FirstIndex(db.cards, CardWithAccount(acc.accountId));
    if existing.Some? {
      var i := existing.value;
      id := db.cards[i].id;
      db.cards := db.cards[i := db.cards[i].(values := values, updatedAt := Some(now))];
    } else {
      id := db.nextId;
      db.cards := db.cards + [CardRow(id, acc.accountId, values, None)];
      db.nextId := db.nextId + 1;
    }
  }

  // ------------------------------------------------------------- plaid items

  /** `INSERT ... ON CONFLICT (user_id) DO UPDATE`: replaces the user's row or appends one. */
  function UpsertItem(items: seq<PlaidItem>, item: PlaidItem): seq<PlaidItem> {
    match FirstIndex(items, ItemOwnedBy(item.userId))
    case Some(i) => items[i := item]
    case None => items + [item]
  }

  /** After the upsert the user has exactly one row, the new one; other users' rows are untouched. */
  lemma UpsertItemKeyed(items: seq<PlaidItem>, item: PlaidItem)
    requires OneItemPerUser(items)
    ensures var r := UpsertItem(items, item);
      && OneItemPerUser(r)
      && item in r
      && (forall x :: x in r && x.userId == item.userId ==> x == item)
      && (forall x :: x in items && x.userId != item.userId ==> x in r)
      && (forall x :: x in r && x.userId != item.userId ==> x in items)
  {
    var r := UpsertItem(items, item);
    match FirstIndex(items, ItemOwnedBy(item.userId))
    case Some(i) =>
      assert r[i] == item;
      forall x | x in items && x.userId != item.userId ensures x in r {
        var j :| 0 <= j < |items| && items[j] == x;
        assert r[j] == x;
      }
      forall x | x in r && x.userId != item.userId ensures x in items {
        var j :| 0 <= j < |r| && r[j] == x;
        assert items[j] == x;
      }
    case None =>
  }

  /** Repeated exchanges leave one row for the user, holding the latest token and item id. */
  lemma RepeatedExchangeKeepsLatest(items: seq<PlaidItem>, first: PlaidItem, second: PlaidItem)
    requires OneItemPerUser(items) && first.userId == second.userId
    ensures var r := UpsertItem(UpsertItem(items, first), second);
      && |r| == |UpsertItem(items, first)|
      && (forall x :: x in r && x.userId == second.userId ==> x == second)
      && second in r
  {
    UpsertItemKeyed(items, first);
    UpsertItemKeyed(UpsertItem(items, first), second);
    var once := UpsertItem(items, first);
    var k :| 0 <= k < |once| && once[k] == first;
    assert ItemOwnedBy(second.userId)(once[k]);
  }

  // ----------------------------------------------------------- the handlers

  /** `getCreditCardAccounts`: every stored card of the given user, and no other. */
  function GetCreditCardAccounts(cards: seq<CardRow>, userId: int): (r: Response)
    ensures r.status == 200 && r.body.CreditCards?
    ensures forall c :: c in r.body.creditCards <==> c in cards && c.values.userId == userId
    ensures forall c :: multiset(r.body.creditCards)[c] == if c.values.userId == userId then multiset(cards)[c] else 0
  {
    Response(200, CreditCards(Where(cards, CardOwnedBy(userId))))
  }

  /** `exchangePublicToken`. Without a token or caller: 400 and no aggregator call. Otherwise the
      item row is upserted as soon as the exchange succeeds; then each credit account is upserted
      with its matched liability (a failed liabilities call counts as none); the response lists
      every stored card of the user. A failed exchange or accounts call answers 500. */
  method ExchangePublicToken(db: Db, userId: Option<int>, publicToken: Option<string>, exchange: TokenExchange,
                             accounts: Option<seq<Account>>, liabilities: Option<Liabilities>, now: int)
    returns (resp: Response, calledAggregator: bool)
    requires db.Valid()
    modifies db`plaidItems, db`cards, db`nextId
    ensures db.Valid()
    ensures !(Present(publicToken) && NonZero(userId)) ==>
      resp == Response(400, Error("public_token required")) && !calledAggregator && unchanged(db)
    ensures Present(publicToken) && NonZero(userId) ==>
      && calledAggregator
      && match exchange
         case ExchangeFailed => resp == Response(500, ProviderError) && unchanged(db)
         case Exchanged(accessToken, itemId) =>
           && db.plaidItems == UpsertItem(old(db.plaidItems), PlaidItem(userId.value, accessToken, itemId))
           && match accounts
              case None =>
                resp == Response(500, ProviderError) && db.cards == old(db.cards) && db.nextId == old(db.nextId)
              case Some(all) =>
                && CardTable(db.cards, db.nextId)
                   == SyncCards(CardTable(old(db.cards), old(db.nextId)), userId.value, CreditAccounts(all), liabilities, now)
                && resp == Response(200, Cards(Where(db.cards, CardOwnedBy(userId.value))))
  {
    if !(Present(publicToken) && NonZero(userId)) {
      return Response(400, Error("public_token required")), false;
    }
    calledAggregator := true;
    var uid := userId.value;
    if exchange.ExchangeFailed? {
      return Response(500, ProviderError), true;
    }
    UpsertItemKeyed(db.plaidItems, PlaidItem(uid, exchange.accessToken, exchange.itemId));
    db.plaidItems := UpsertItem(db.plaidItems, PlaidItem(uid, exchange.accessToken, exchange.itemId));
    if accounts.None? {
      return Response(500, ProviderError), true;
    }
    SyncCreditCards(db, uid, CreditAccounts(accounts.value), liabilities, now);
    resp := Response(200, Cards(Where(db.cards, CardOwnedBy(uid))));
  }

  lemma SyncCardsStep(t: CardTable, userId: int, credit: seq<Account>, i: nat, liabilities: Option<Liabilities>, now: int)
    requires i < |credit|
    ensures SyncCards(t, userId, credit[..i + 1], liabilities, now)
      == UpsertCard(SyncCards(t, userId, credit[..i], liabilities, now), userId, credit[i],
                    MatchLiability(liabilities, credit[i].accountId), now)
  {
    var done := credit[..i + 1];
    assert done[..|done| - 1] == credit[..i] && done[|done| - 1] == credit[i];
  }

  /** The loop of `exchangePublicToken`: one `upsertCreditCard` per credit account, in order. */
  method SyncCreditCards(db: Db, userId: int, credit: seq<Account>, liabilities: Option<Liabilities>, now: int)
    requires db.Valid()
    modifies db`cards, db`nextId
    ensures db.Valid()
    ensures CardTable(db.cards, db.nextId) == SyncCards(CardTable(old(db.cards), old(db.nextId)), userId, credit, liabilities, now)
  {
    ghost var start := CardTable(db.cards, db.nextId);
    var i := 0;
    while i < |credit|
      invariant 0 <= i <= |credit|
      invariant db.Valid()
      invariant CardTable(db.cards, db.nextId) == SyncCards(start, userId, credit[..i], liabilities, now)
    {
      var acc := credit[i];
      var liab := MatchLiability(liabilities, acc.accountId);
      SyncCardsStep(start, userId, credit, i, liabilities, now);
      var _ := UpsertCreditCard(db, userId, acc, liab, now);
      i := i + 1;
    }
    assert credit[..|credit|] == credit;
  }

  /** A sync leaves the rows of every account that is not a credit account of the snapshot as
      they were. */
  lemma ExchangeTouchesOnlyCreditAccounts(t: CardTable, userId: int, accounts: seq<Account>,
                                          liabilities: Option<Liabilities>, now: int, i: int)
    requires ValidCards(t) && 0 <= i < |t.rows|
    requires forall a :: a in accounts && a.accountId == t.rows[i].accountId ==> a.kind != "credit"
    ensures var r := SyncCards(t, userId, CreditAccounts(accounts), liabilities, now);
      i < |r.rows| && r.rows[i] == t.rows[i]
  {
    SyncCardsKeyed(t, userId, CreditAccounts(accounts), liabilities, now);
  }

  /** A sync gives each credit account of the snapshot exactly one row: a row is found for it,
      and any two rows carrying its account id are the same row. */
  lemma ExchangeGivesEachCreditAccountOneRow(t: CardTable, userId: int, accounts: seq<Account>,
                                             liabilities: Option<Liabilities>, now: int)
    requires ValidCards(t)
    ensures var r := SyncCards(t, userId, CreditAccounts(accounts), liabilities, now);
      forall a :: a in accounts && a.kind == "credit" ==>
        && FirstIndex(r.rows, CardWithAccount(a.accountId)).Some?
        && (forall j, k ::
              (0 <= j < |r.rows| && 0 <= k < |r.rows| && r.rows[j].accountId == a.accountId &&
               r.rows[k].accountId == a.accountId) ==> j == k)
  {
    var credit := CreditAccounts(accounts);
    SyncCardsKeyed(t, userId, credit, liabilities, now);
    SyncCardsCovers(t, userId, credit, liabilities, now);
  }
}
