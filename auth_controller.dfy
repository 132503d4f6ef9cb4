/// `register`, `login` and `getMe`. Password hashing, hash comparison and token
/// signing are parameters (`hash`, `compare`, `sign`).
module AuthController {
  import opened Common
  import opened Text
  import opened Tables
  import opened Ledger
  import opened Http

  /** Every new user starts with this credit score. */
  const DefaultCreditScore := 720

  /** Number of payments `getMe` returns at most. */
  const RecentPaymentLimit := 20

  // ---------------------------------------------------------------- register

  /** Registration stores the lower-cased email, the hash of the password, the user already
      verified and the default credit score, or refuses without touching the table. */
  method Register(db: Db, firstName: Option<string>, lastName: Option<string>, email: Option<string>,
                  password: Option<string>, hash: string -> string, sign: int -> string)
    returns (resp: Response)
    requires db.Valid()
    modifies db`users, db`nextId
    ensures db.Valid()
    ensures !(Present(firstName) && Present(lastName) && Present(email) && Present(password)) ==>
      resp == Response(400, Error("Missing fields")) && unchanged(db)
    ensures Present(firstName) && Present(lastName) && Present(email) && Present(password) ==>
      var normalized := ToLower(email.value);
      if FirstIndex(old(db.users), UserWithEmail(normalized)).Some? then
        resp == Response(400, Error("User already exists")) && unchanged(db)
      else
        var id := old(db.nextId);
        && db.users == old(db.users) + [User(id, firstName.value, lastName.value, normalized,
                                             hash(password.value), true, DefaultCreditScore)]
        && db.nextId == id + 1
        && resp == Response(201, Registered(NewUser(id, firstName.value, lastName.value, normalized,
                                                    DefaultCreditScore), sign(id)))
  {
    if !(Present(firstName) && Present(lastName) && Present(email) && Present(password)) {
      return Response(400, Error("Missing fields"));
    }
    var normalized := ToLower(email.value);
    if FirstIndex(db.users, UserWithEmail(normalized)).Some? {
      return Response(400, Error("User already exists"));
    }
    var id := db.nextId;
    var user := User(id, firstName.value, lastName.value, normalized, hash(password.value), true, DefaultCreditScore);
    ToLowerIsLower(email.value);
    db.users := db.users + [user];
    db.nextId := id + 1;
    resp := Response(201, Registered(NewUser(id, user.firstName, user.lastName, normalized, DefaultCreditScore), sign(id)));
  }

  /** The duplicate check is case-insensitive: with emails stored lower-case, a registration is
      refused exactly when some stored email equals the new one up to letter case. */
  lemma DuplicateCheckIgnoresCase(users: seq<User>, email: string)
    requires EmailsNormalised(users)
    ensures FirstIndex(users, UserWithEmail(ToLower(email))).Some? <==>
      exists i :: 0 <= i < |users| && ToLower(users[i].email) == ToLower(email)
  {
    if i :| 0 <= i < |users| && ToLower(users[i].email) == ToLower(email) {
      assert UserWithEmail(ToLower(email))(users[i]);
    }
    if FirstIndex(users, UserWithEmail(ToLower(email))).Some? {
      var i := FirstIndex(users, UserWithEmail(ToLower(email))).value;
      assert users[i].email == ToLower(email);
      ToLowerIsLower(email);
    }
  }

  // ------------------------------------------------------------------ login

  /** A known email with the right password yields a token and the user's public columns;
      an unknown email and a wrong password yield the same 400; a missing email is a 500
      (lower-casing `undefined` throws). */
  function Login(users: seq<User>, email: Option<string>, password: string,
                 compare: (string, string) -> bool, sign: int -> string): (r: Response)
    ensures email.None? ==> r == Response(500, Error("server_error"))
    ensures email.Some? ==>
      var found := FirstIndex(users, UserWithEmail(ToLower(email.value)));
      && (r.status == 200 <==> found.Some? && compare(password, users[found.value].passwordHash))
      && (r.status == 200 ==> r.body == LoggedIn(sign(users[found.value].id), PublicView(users[found.value])))
      && (r.status != 200 ==> r == Response(400, Error("Invalid credentials")))
  {
    match email
    case None => Response(500, Error("server_error"))
    case Some(e) =>
      match FirstIndex(users, UserWithEmail(ToLower(e)))
      case None => Response(400, Error("Invalid credentials"))
      case Some(i) =>
        var user := users[i];
        if !compare(password, user.passwordHash) then Response(400, Error("Invalid credentials"))
        else Response(200, LoggedIn(sign(user.id), PublicView(user)))
  }

  /** Login after registration: the stored hash is compared and the registered user comes back. */
  lemma LoginFindsRegisteredUser(users: seq<User>, u: User, email: string, password: string,
                                 compare: (string, string) -> bool, sign: int -> string)
    requires FirstIndex(users, UserWithEmail(u.email)).None?
    requires u.email == ToLower(email) && compare(password, u.passwordHash)
    ensures Login(users + [u], Some(email), password, compare, sign)
      == Response(200, LoggedIn(sign(u.id), PublicView(u)))
  {
    FirstIndexAppend(users, u, UserWithEmail(u.email));
  }

  // ------------------------------------------------------------------ getMe

  function SourceId(f: FundingSourceRow): int { f.id }
  function CardIdOf(c: CardRow): int { c.id }
  function ViewCreatedAt(v: PaymentView): int { v.payment.createdAt }

  /** The user's funding sources that are not removed, newest id first. */
  function ActiveFundingSources(sources: seq<FundingSourceRow>, userId: int): (r: seq<FundingSourceRow>)
    ensures forall i :: 0 <= i < |r| ==> r[i].userId == userId && r[i].status != "removed"
    ensures forall f :: f in sources && f.userId == userId && f.status != "removed" ==> f in r
    ensures multiset(r) == multiset(Where(sources, ActiveSourceOf(userId)))
    ensures SortedDesc(r, SourceId)
  {
    var active := Where(sources, ActiveSourceOf(userId));
    var r := SortDesc(active, SourceId);
    forall i | 0 <= i < |r| ensures r[i].userId == userId && r[i].status != "removed" {
      assert r[i] in multiset(r);
      assert ActiveSourceOf(userId)(r[i]);
    }
    forall f | f in sources && f.userId == userId && f.status != "removed" ensures f in r {
      assert f in active;
      assert f in multiset(r);
    }
    r
  }

  /** The user's cards, newest id first. */
  function UserCards(cards: seq<CardRow>, userId: int): (r: seq<CardRow>)
    ensures forall i :: 0 <= i < |r| ==> r[i].values.userId == userId
    ensures multiset(r) == multiset(Where(cards, CardOwnedBy(userId)))
    ensures SortedDesc(r, CardIdOf)
  {
    var mine := Where(cards, CardOwnedBy(userId));
    var r := SortDesc(mine, CardIdOf);
    assert forall i :: 0 <= i < |r| ==> r[i] in multiset(mine);
    r
  }

  /** `LEFT JOIN credit_cards c ON p.credit_card_id = c.id`: the card's name, or null when no card has the id. */
  function CardName(cards: seq<CardRow>, id: int): (r: Option<string>)
    ensures r.Some? <==> exists c :: c in cards && c.id == id
    ensures r.Some? ==> exists c :: c in cards && c.id == id && c.values.name == r.value
  {
    match FirstIndex(cards, CardWithId(id))
    case None =>
      None
    case Some(i) =>
      assert cards[i] in cards && cards[i].id == id;
      Some(cards[i].values.name)
  }

  /** `LEFT JOIN dwolla_funding_sources fs ON p.funding_source_id = fs.id`: the source's name, or null. */
  function BankName(sources: seq<FundingSourceRow>, id: int): (r: Option<string>)
    ensures r.Some? <==> exists f :: f in sources && f.id == id
    ensures r.Some? ==> exists f :: f in sources && f.id == id && f.name == r.value
  {
    match FirstIndex(sources, SourceWithId(id))
    case None =>
      None
    case Some(i) =>
      assert sources[i] in sources && sources[i].id == id;
      Some(sources[i].name)
  }

  /** With unique card ids, the joined name is the name of the one card with the id. */
  lemma CardNameOfUniqueId(cards: seq<CardRow>, i: int)
    requires CardIdsUnique(cards) && 0 <= i < |cards|
    ensures CardName(cards, cards[i].id) == Some(cards[i].values.name)
  {
    FirstIndexAt(cards, i, CardWithId(cards[i].id));
  }

  /** The user's payments, in table order, each with the name of its card and of its funding
      source, null where the join finds no row. */
  function JoinedPayments(payments: seq<PaymentRow>, cards: seq<CardRow>, sources: seq<FundingSourceRow>,
                          userId: int): (r: seq<PaymentView>)
    ensures |r| == |Where(payments, PaymentOwnedBy(userId))|
    ensures forall i :: 0 <= i < |r| ==> r[i].payment == Where(payments, PaymentOwnedBy(userId))[i]
    ensures forall i :: 0 <= i < |r| ==> r[i].payment.userId == userId && r[i].payment in payments
    ensures forall i :: 0 <= i < |r| ==>
      (r[i].cardName.Some? <==> exists c :: c in cards && c.id == r[i].payment.creditCardId)
    ensures forall i :: 0 <= i < |r| && r[i].cardName.Some? ==>
      exists c :: c in cards && c.id == r[i].payment.creditCardId && c.values.name == r[i].cardName.value
    ensures forall i :: 0 <= i < |r| ==>
      (r[i].bankName.Some? <==> exists f :: f in sources && f.id == r[i].payment.fundingSourceId)
    ensures forall i :: 0 <= i < |r| && r[i].bankName.Some? ==>
      exists f :: f in sources && f.id == r[i].payment.fundingSourceId && f.name == r[i].bankName.value
  {
    var mine := Where(payments, PaymentOwnedBy(userId));
    seq(|mine|, i requires 0 <= i < |mine| =>
      PaymentView(mine[i], CardName(cards, mine[i].creditCardId), BankName(sources, mine[i].fundingSourceId)))
  }

  /** At most twenty of the user's payments, newest first; every payment left out is no newer
      than any payment returned. */
  function RecentPayments(payments: seq<PaymentRow>, cards: seq<CardRow>, sources: seq<FundingSourceRow>,
                          userId: int): (r: seq<PaymentView>)
    ensures |r| == Min(RecentPaymentLimit, |Where(payments, PaymentOwnedBy(userId))|)
    ensures forall i :: 0 <= i < |r| ==> r[i].payment.userId == userId && r[i].payment in payments
    ensures SortedDesc(r, ViewCreatedAt)
    ensures multiset(r) <= multiset(JoinedPayments(payments, cards, sources, userId))
    ensures forall v :: v in multiset(JoinedPayments(payments, cards, sources, userId)) - multiset(r) ==>
      forall i :: 0 <= i < |r| ==> v.payment.createdAt <= r[i].payment.createdAt
  {
    var joined := JoinedPayments(payments, cards, sources, userId);
    var sorted := SortDesc(joined, ViewCreatedAt);
    var r := Take(sorted, RecentPaymentLimit);
    TakeKeepsLargest(sorted, RecentPaymentLimit, ViewCreatedAt);
    forall i | 0 <= i < |r| ensures r[i].payment.userId == userId && r[i].payment in payments {
      assert r[i] in multiset(r);
      assert r[i] in multiset(joined);
      var k :| 0 <= k < |joined| && joined[k] == r[i];
    }
    r
  }

  /** `getMe`: 404 when the user row is absent; otherwise the public user columns, the user's
      cards, active funding sources and recent payments, and the customer record or null. */
  function GetMe(users: seq<User>, cards: seq<CardRow>, customers: seq<CustomerRow>,
                 sources: seq<FundingSourceRow>, payments: seq<PaymentRow>, userId: int): (r: Response)
    ensures r.status == 404 <==> FirstIndex(users, UserWithId(userId)).None?
    ensures r.status == 404 ==> r.body == Error("User not found")
    ensures r.status != 404 ==>
      && r.status == 200 && r.body.Me?
      && r.body.user == PublicView(users[FirstIndex(users, UserWithId(userId)).value])
      && r.body.cards == UserCards(cards, userId)
      && r.body.fundingSources == ActiveFundingSources(sources, userId)
      && r.body.payments == RecentPayments(payments, cards, sources, userId)
      && (r.body.dwolla.None? <==> FirstIndex(customers, CustomerOwnedBy(userId)).None?)
      && (r.body.dwolla.Some? ==>
            var k := FirstIndex(customers, CustomerOwnedBy(userId)).value;
            r.body.dwolla.value == CustomerSummary(customers[k].customerId, customers[k].status))
  {
    match FirstIndex(users, UserWithId(userId))
    case None => Response(404, Error("User not found"))
    case Some(i) =>
      var dwolla := match FirstIndex(customers, CustomerOwnedBy(userId))
        case None => None
        case Some(c) => Some(CustomerSummary(customers[c].customerId, customers[c].status));
      Response(200, Me(PublicView(users[i]), UserCards(cards, userId), ActiveFundingSources(sources, userId),
                       RecentPayments(payments, cards, sources, userId), dwolla))
  }
}
