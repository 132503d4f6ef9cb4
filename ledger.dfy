/// The relational store: one sequence of rows per table, in insertion order.
/// Serial ids come from one counter; timestamps the database assigns with
/// `NOW()` are passed in by the caller.
module Ledger {
  import opened Common
  import opened Text

  datatype User = User(
    id: int,
    firstName: string,
    lastName: string,
    email: string,
    passwordHash: string,
    isVerified: bool,
    creditScore: int)

  /** A `dwolla_customers` row; `ssnLast4` holds the ciphertext the vault returned. */
  datatype CustomerRow = CustomerRow(
    userId: int,
    customerId: string,
    legalFirstName: string,
    legalLastName: string,
    dob: string,
    ssnLast4: string,
    addressLine1: string,
    addressLine2: Option<string>,
    city: string,
    state: string,
    postalCode: string,
    email: string,
    status: string,
    updatedAt: Option<int>)

  datatype FundingSourceRow = FundingSourceRow(
    id: int,
    userId: int,
    fundingSourceId: string,
    name: string,
    status: string)

  /** The columns of a `credit_cards` row that a sync writes (everything but `id`, `account_id`, `updated_at`). */
  datatype CardValues = CardValues(
    userId: int,
    name: string,
    mask: Option<string>,
    currentBalance: Option<int>,
    availableBalance: int,
    creditLimit: Option<int>,
    totalDue: int,
    minDue: int,
    nextDueDate: Option<string>)

  datatype CardRow = CardRow(id: int, accountId: string, values: CardValues, updatedAt: Option<int>)

  /** A `payments` row; `amount` is in cents. */
  datatype PaymentRow = PaymentRow(
    id: int,
    userId: int,
    creditCardId: int,
    fundingSourceId: int,
    amount: int,
    transferId: string,
    status: string,
    createdAt: int)

  datatype PlaidItem = PlaidItem(userId: int, accessToken: string, itemId: string)

  // The WHERE clauses of the handlers' queries, one per (table, key) pair.

  function UserWithEmail(email: string): User -> bool { (u: User) => u.email == email }
  function UserWithId(id: int): User -> bool { (u: User) => u.id == id }
  function CustomerOwnedBy(userId: int): CustomerRow -> bool { (c: CustomerRow) => c.userId == userId }
  /** `WHERE id = $1 AND user_id = $2` on `dwolla_funding_sources`. */
  function SourceOwnedBy(id: int, userId: int): FundingSourceRow -> bool { (f: FundingSourceRow) => f.id == id && f.userId == userId }
  function SourceWithId(id: int): FundingSourceRow -> bool { (f: FundingSourceRow) => f.id == id }
  /** `WHERE user_id = $1 AND status != 'removed'`. */
  function ActiveSourceOf(userId: int): FundingSourceRow -> bool { (f: FundingSourceRow) => f.userId == userId && f.status != "removed" }
  function CardWithAccount(accountId: string): CardRow -> bool { (c: CardRow) => c.accountId == accountId }
  function CardWithId(id: int): CardRow -> bool { (c: CardRow) => c.id == id }
  function CardOwnedBy(userId: int): CardRow -> bool { (c: CardRow) => c.values.userId == userId }
  function PaymentOwnedBy(userId: int): PaymentRow -> bool { (p: PaymentRow) => p.userId == userId }
  function ItemOwnedBy(userId: int): PlaidItem -> bool { (i: PlaidItem) => i.userId == userId }

  /** Emails are stored lower-case and no two users share one. */
  ghost predicate EmailsNormalised(users: seq<User>) {
    && (forall i :: 0 <= i < |users| ==> IsLower(users[i].email))
    && (forall i, j :: 0 <= i < j < |users| ==> users[i].email != users[j].email)
  }

  /** `plaid_items` has at most one row per user (the `ON CONFLICT (user_id)` key). */
  ghost predicate OneItemPerUser(items: seq<PlaidItem>) {
    forall i, j :: 0 <= i < j < |items| ==> items[i].userId != items[j].userId
  }

  /** `dwolla_customers` has at most one row per user: a row is only added after the lookup by
      user id found none, and the status sync rewrites a row in place. */
  ghost predicate OneCustomerPerUser(customers: seq<CustomerRow>) {
    forall i, j :: 0 <= i < j < |customers| ==> customers[i].userId != customers[j].userId
  }

  /** `credit_cards` has at most one row per external account id. */
  ghost predicate OneCardPerAccount(cards: seq<CardRow>) {
    forall i, j :: 0 <= i < j < |cards| ==> cards[i].accountId != cards[j].accountId
  }

  /** No two `credit_cards` rows share an id: the update by id and the payments join on it
      each reach one row. */
  ghost predicate CardIdsUnique(cards: seq<CardRow>) {
    forall i, j :: 0 <= i < j < |cards| ==> cards[i].id != cards[j].id
  }

  /** No two `dwolla_funding_sources` rows share an id, so the payments join reaches one row. */
  ghost predicate SourceIdsUnique(sources: seq<FundingSourceRow>) {
    forall i, j :: 0 <= i < j < |sources| ==> sources[i].id != sources[j].id
  }

  ghost predicate CardIdsBelow(cards: seq<CardRow>, bound: int) {
    forall i :: 0 <= i < |cards| ==> cards[i].id < bound
  }

  class Db {
    var users: seq<User>
    var customers: seq<CustomerRow>
    var fundingSources: seq<FundingSourceRow>
    var cards: seq<CardRow>
    var payments: seq<PaymentRow>
    var plaidItems: seq<PlaidItem>
    var nextId: int

    /** The table invariants every handler keeps; ids are unique and new ids are always fresh. */
    ghost predicate Valid()
      reads this
    {
      && EmailsNormalised(users)
      && OneItemPerUser(plaidItems)
      && OneCustomerPerUser(customers)
      && OneCardPerAccount(cards)
      && (forall i :: 0 <= i < |users| ==> users[i].id < nextId)
      && (forall i :: 0 <= i < |fundingSources| ==> fundingSources[i].id < nextId)
      && (forall i :: 0 <= i < |payments| ==> payments[i].id < nextId)
      && CardIdsBelow(cards, nextId)
      && CardIdsUnique(cards)
      && SourceIdsUnique(fundingSources)
    }

    constructor ()
      ensures Valid()
      ensures users == [] && customers == [] && fundingSources == []
      ensures cards == [] && payments == [] && plaidItems == []
    {
      users, customers, fundingSources := [], [], [];
      cards, payments, plaidItems := [], [], [];
      nextId := 1;
    }
  }
}
