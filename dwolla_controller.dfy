/// The payments-network handlers: `createDwollaCustomer`, `syncDwollaCustomerStatus`,
/// `createFundingSource` and `createPayment`. Each network or aggregator call is a
/// parameter holding what the call returned (or that it failed); each handler also
/// returns the request it sent to the network, or None when it sent none.
module DwollaController {
  import opened Common
  import opened Text
  import opened Tables
  import opened Ledger
  import opened Http

  const FundingSourceName := "Primary Bank Account"
  const ApiBase := "https://api.dwolla.com"

  /** The body of `POST customers`. */
  datatype KycFields = KycFields(
    legalFirstName: Option<string>,
    legalLastName: Option<string>,
    dob: Option<string>,
    ssnLast4: Option<string>,
    addressLine1: Option<string>,
    addressLine2: Option<string>,
    city: Option<string>,
    state: Option<string>,
    postalCode: Option<string>,
    email: Option<string>)

  /** What is sent to the network to create a personal customer. */
  datatype CustomerRequest = CustomerRequest(
    firstName: string,
    lastName: string,
    email: string,
    kind: string,
    dateOfBirth: string,
    ssn: string,
    address1: string,
    address2: Option<string>,
    city: string,
    state: string,
    postalCode: string,
    country: string)

  /** The error body the network returns: its `code` and the messages under `_embedded.errors`. */
  datatype NetworkError = NetworkError(code: Option<string>, embeddedMessages: Option<seq<Option<string>>>)

  /** The outcome of `POST customers`: the `location` header, or a thrown error with or without a body. */
  datatype CreateCustomer = Created(location: string) | CreateFailed(body: Option<NetworkError>)

  /** The outcome of a `POST` that reports the new resource by its `location` header. */
  datatype Post = Located(location: string) | PostFailed

  /** A call to the bank-link aggregator: the public-token exchange, then the processor-token request. */
  datatype AggregatorRequest =
    | ExchangeToken(publicToken: string)
    | ProcessorToken(accessToken: string, accountId: string, processor: string)

  datatype FundingSourceRequest = FundingSourceRequest(customerId: string, processorToken: string, name: string)

  datatype TransferRequest = TransferRequest(source: string, destination: string, amount: int, currency: string)

  // ------------------------------------------------------- createDwollaCustomer

  /** All KYC fields but the second address line are truthy. */
  predicate KycComplete(k: KycFields) {
    && Present(k.legalFirstName) && Present(k.legalLastName) && Present(k.dob) && Present(k.ssnLast4)
    && Present(k.addressLine1) && Present(k.city) && Present(k.state) && Present(k.postalCode)
    && Present(k.email)
  }

  function CustomerRequestFor(k: KycFields): CustomerRequest
    requires KycComplete(k)
  {
    CustomerRequest(k.legalFirstName.value, k.legalLastName.value, k.email.value, "personal", k.dob.value,
                    k.ssnLast4.value, k.addressLine1.value,
                    if Present(k.addressLine2) then k.addressLine2 else None,
                    k.city.value, k.state.value, k.postalCode.value, "US")
  }

  /** Some embedded message contains "already exists" in any letter case. */
  predicate MentionsAlreadyExists(messages: seq<Option<string>>) {
    exists i :: 0 <= i < |messages| && messages[i].Some? && Contains(ToLower(messages[i].value), "already exists")
  }

  /** The error the handler recovers from: a `ValidationError` saying the customer already exists. */
  predicate IsDuplicateCustomer(e: Option<NetworkError>) {
    && e.Some?
    && e.value.code == Some("ValidationError")
    && e.value.embeddedMessages.Some?
    && MentionsAlreadyExists(e.value.embeddedMessages.value)
  }

  /** The customer id the handler adopts: the last segment of the new location, or, after a
      duplicate-customer error, the first hit of the email search. None means the handler fails. */
  function ResolveCustomerId(create: CreateCustomer, searchHits: Option<seq<string>>): (r: Option<string>)
    ensures create.Created? ==> r == Some(LastSegment(create.location, '/')) && '/' !in r.value
    ensures create.CreateFailed? && !IsDuplicateCustomer(create.body) ==> r.None?
    ensures create.CreateFailed? ==>
      (r.Some? <==> IsDuplicateCustomer(create.body) && searchHits.Some? && |searchHits.value| > 0)
    ensures create.CreateFailed? && r.Some? ==> r.value == searchHits.value[0]
  {
    match create
    case Created(location) => Some(LastSegment(location, '/'))
    case CreateFailed(body) =>
      if !IsDuplicateCustomer(body) then None
      else match searchHits
        case Some(hits) => if |hits| > 0 then Some(hits[0]) else None
        case None => None
  }

  /** The row stored for a new customer: the encrypted last four digits, never the raw ones. */
  function NewCustomerRow(userId: int, customerId: string, k: KycFields, encrypt: string -> string): CustomerRow
    requires KycComplete(k)
  {
    CustomerRow(userId, customerId, k.legalFirstName.value, k.legalLastName.value, k.dob.value,
                encrypt(k.ssnLast4.value), k.addressLine1.value, k.addressLine2, k.city.value, k.state.value,
                k.postalCode.value, k.email.value, "verified", None)
  }

  /** `UPDATE users SET is_verified = TRUE WHERE id = $1`. */
  function MarkVerified(users: seq<User>, userId: int): (r: seq<User>)
    ensures |r| == |users|
  {
    seq(|users|, i requires 0 <= i < |users| =>
      if users[i].id == userId then users[i].(isVerified := true) else users[i])
  }

  /** Only the target user's flag changes, and it becomes true; the update is idempotent. */
  lemma MarkVerifiedOnlyTarget(users: seq<User>, userId: int)
    ensures forall i :: 0 <= i < |users| && users[i].id != userId ==> MarkVerified(users, userId)[i] == users[i]
    ensures forall i :: 0 <= i < |users| && users[i].id == userId ==>
      MarkVerified(users, userId)[i] == users[i].(isVerified := true)
    ensures MarkVerified(MarkVerified(users, userId), userId) == MarkVerified(users, userId)
  {
  }

  lemma MarkVerifiedKeepsEmails(users: seq<User>, userId: int)
    requires EmailsNormalised(users)
    ensures EmailsNormalised(MarkVerified(users, userId))
  {
    var r := MarkVerified(users, userId);
    assert forall i :: 0 <= i < |users| ==> r[i].email == users[i].email;
  }

  /** `createDwollaCustomer`. Error precedence: no caller 401, then incomplete KYC 400, then an
      existing customer row is returned unchanged; only then is the network asked, and a failure
      there (other than a recovered duplicate) is a 500 that writes nothing. */
  method CreateDwollaCustomer(db: Db, userId: Option<int>, kyc: KycFields, encrypt: string -> string,
                              create: CreateCustomer, searchHits: Option<seq<string>>)
    returns (resp: Response, request: Option<CustomerRequest>, search: Option<string>)
    requires db.Valid()
    modifies db`customers, db`users
    ensures db.Valid()
    ensures !NonZero(userId) ==>
      resp == Response(401, Error("Unauthorized")) && request.None? && search.None? && unchanged(db)
    ensures NonZero(userId) && !KycComplete(kyc) ==>
      resp == Response(400, Error("Missing required KYC fields")) && request.None? && search.None? && unchanged(db)
    ensures NonZero(userId) && KycComplete(kyc) && FirstIndex(old(db.customers), CustomerOwnedBy(userId.value)).Some? ==>
      var existing := old(db.customers)[FirstIndex(old(db.customers), CustomerOwnedBy(userId.value)).value];
      && resp == Response(200, Customer(existing.customerId, existing.status))
      && request.None? && search.None? && unchanged(db)
    ensures NonZero(userId) && KycComplete(kyc) && FirstIndex(old(db.customers), CustomerOwnedBy(userId.value)).None? ==>
      && request == Some(CustomerRequestFor(kyc))
      && request.value.ssn == kyc.ssnLast4.value
      && (search.Some? <==> create.CreateFailed? && IsDuplicateCustomer(create.body))
      && (search.Some? ==> search.value == kyc.email.value)
      && match ResolveCustomerId(create, searchHits)
         case None => resp == Response(500, Error("Failed to create or sync Dwolla customer")) && unchanged(db)
         case Some(id) =>
           && db.customers == old(db.customers) + [NewCustomerRow(userId.value, id, kyc, encrypt)]
           && db.customers[|db.customers| - 1].ssnLast4 == encrypt(kyc.ssnLast4.value)
           && db.users == MarkVerified(old(db.users), userId.value)
           && resp == Response(200, Customer(id, "verified"))
  {
    request, search := None, None;
    if !NonZero(userId) {
      return Response(401, Error("Unauthorized")), None, None;
    }
    var uid := userId.value;
    if !KycComplete(kyc) {
      return Response(400, Error("Missing required KYC fields")), None, None;
    }
    var existing := FirstIndex(db.customers, CustomerOwnedBy(uid));
    if existing.Some? {
      var row := db.customers[existing.value];
      return Response(200, Customer(row.customerId, row.status)), None, None;
    }
    request := Some(CustomerRequestFor(kyc));
    if create.CreateFailed? && IsDuplicateCustomer(create.body) {
      search := Some(kyc.email.value);
    }
    var customerId := ResolveCustomerId(create, searchHits);
    if customerId.None? {
      return Response(500, Error("Failed to create or sync Dwolla customer")), request, search;
    }
    var row := NewCustomerRow(uid, customerId.value, kyc, encrypt);
    AddCustomerKeepsOnePerUser(db.customers, row);
    db.customers := db.customers + [row];
    MarkVerifiedKeepsEmails(db.users, uid);
    db.users := MarkVerified(db.users, uid);
    resp := Response(200, Customer(customerId.value, "verified"));
  }

  /** A row added for a user the lookup found no row for keeps one customer row per user. */
  lemma AddCustomerKeepsOnePerUser(customers: seq<CustomerRow>, row: CustomerRow)
    requires OneCustomerPerUser(customers)
    requires FirstIndex(customers, CustomerOwnedBy(row.userId)).None?
    ensures OneCustomerPerUser(customers + [row])
  {
    var after := customers + [row];
    forall i, j | 0 <= i < j < |after|
      ensures after[i].userId != after[j].userId
    {
      if j == |customers| {
        assert !CustomerOwnedBy(row.userId)(customers[i]);
      }
    }
  }

  /** Reconciliation is idempotent: once a customer row has been stored for the user, the next
      request finds it and answers with the same customer id and status `verified`. */
  lemma SecondRequestFindsStoredCustomer(customers: seq<CustomerRow>, userId: int, customerId: string,
                                         kyc: KycFields, encrypt: string -> string)
    requires KycComplete(kyc)
    requires FirstIndex(customers, CustomerOwnedBy(userId)).None?
    ensures var after := customers + [NewCustomerRow(userId, customerId, kyc, encrypt)];
      var k := FirstIndex(after, CustomerOwnedBy(userId));
      k.Some? && after[k.value].customerId == customerId && after[k.value].status == "verified"
  {
    FirstIndexAppend(customers, NewCustomerRow(userId, customerId, kyc, encrypt), CustomerOwnedBy(userId));
  }

  // --------------------------------------------------- syncDwollaCustomerStatus

  /** `UPDATE dwolla_customers SET status = $1, updated_at = NOW() WHERE user_id = $2`. */
  function SetCustomerStatus(customers: seq<CustomerRow>, userId: int, status: string, now: int): (r: seq<CustomerRow>)
    ensures |r| == |customers|
  {
    seq(|customers|, i requires 0 <= i < |customers| =>
      if customers[i].userId == userId then customers[i].(status := status, updatedAt := Some(now))
      else customers[i])
  }

  /** The status update touches exactly the user's rows, leaving their identity fields alone. */
  lemma SetCustomerStatusOnlyTarget(customers: seq<CustomerRow>, userId: int, status: string, now: int)
    ensures forall i :: 0 <= i < |customers| ==>
      var r := SetCustomerStatus(customers, userId, status, now)[i];
      && r.userId == customers[i].userId && r.customerId == customers[i].customerId
      && r.ssnLast4 == customers[i].ssnLast4
      && (customers[i].userId == userId ==> r.status == status && r.updatedAt == Some(now))
      && (customers[i].userId != userId ==> r == customers[i])
  {
  }

  /** The status update keeps one customer row per user. */
  lemma SetCustomerStatusKeepsOnePerUser(customers: seq<CustomerRow>, userId: int, status: string, now: int)
    requires OneCustomerPerUser(customers)
    ensures OneCustomerPerUser(SetCustomerStatus(customers, userId, status, now))
  {
    var r := SetCustomerStatus(customers, userId, status, now);
    assert forall i :: 0 <= i < |r| ==> r[i].userId == customers[i].userId;
  }

  /** `syncDwollaCustomerStatus`: `fetched` is the status the network reports for the customer,
      or None when the request fails. */
  method SyncDwollaCustomerStatus(db: Db, userId: Option<int>, fetched: Option<string>, now: int)
    returns (resp: Response, asked: Option<string>)
    requires db.Valid()
    modifies db`customers
    ensures db.Valid()
    ensures !NonZero(userId) ==> resp == Response(401, Error("Unauthorized")) && asked.None? && unchanged(db)
    ensures NonZero(userId) && FirstIndex(old(db.customers), CustomerOwnedBy(userId.value)).None? ==>
      resp == Response(404, Error("Dwolla customer not found")) && asked.None? && unchanged(db)
    ensures NonZero(userId) && FirstIndex(old(db.customers), CustomerOwnedBy(userId.value)).Some? ==>
      && asked == Some(old(db.customers)[FirstIndex(old(db.customers), CustomerOwnedBy(userId.value)).value].customerId)
      && match fetched
         case None => resp == Response(500, Error("Failed to sync Dwolla customer status")) && unchanged(db)
         case Some(status) =>
           db.customers == SetCustomerStatus(old(db.customers), userId.value, status, now)
           && resp == Response(200, CustomerStatus(status))
  {
    if !NonZero(userId) {
      return Response(401, Error("Unauthorized")), None;
    }
    var uid := userId.value;
    var found := FirstIndex(db.customers, CustomerOwnedBy(uid));
    if found.None? {
      return Response(404, Error("Dwolla customer not found")), None;
    }
    asked := Some(db.customers[found.value].customerId);
    if fetched.None? {
      return Response(500, Error("Failed to sync Dwolla customer status")), asked;
    }
    SetCustomerStatusKeepsOnePerUser(db.customers, uid, fetched.value, now);
    db.customers := SetCustomerStatus(db.customers, uid, fetched.value, now);
    resp := Response(200, CustomerStatus(fetched.value));
  }

  // -------------------------------------------------------- createFundingSource

  /** `createFundingSource` (the caller is authenticated). `accessToken` and `processorToken` are
      what the aggregator's token exchange and processor-token calls returned, None on failure;
      `calls` lists the aggregator requests sent, in order. */
  method CreateFundingSource(db: Db, userId: int, publicToken: Option<string>, accountId: Option<string>,
                             accessToken: Option<string>, processorToken: Option<string>, created: Post)
    returns (resp: Response, request: Option<FundingSourceRequest>, calls: seq<AggregatorRequest>)
    requires db.Valid()
    modifies db`fundingSources, db`nextId
    ensures db.Valid()
    ensures !(Present(publicToken) && Present(accountId)) ==>
      resp == Response(400, Error("Missing Plaid token or account id")) && request.None? && calls == [] && unchanged(db)
    ensures Present(publicToken) && Present(accountId) && FirstIndex(old(db.customers), CustomerOwnedBy(userId)).None? ==>
      resp == Response(404, Error("Dwolla customer not found")) && request.None? && calls == [] && unchanged(db)
    ensures Present(publicToken) && Present(accountId) && FirstIndex(old(db.customers), CustomerOwnedBy(userId)).Some? ==>
      && (accessToken.None? ==> calls == [ExchangeToken(publicToken.value)])
      && (accessToken.Some? ==>
            calls == [ExchangeToken(publicToken.value), ProcessorToken(accessToken.value, accountId.value, "dwolla")])
    ensures Present(publicToken) && Present(accountId) && FirstIndex(old(db.customers), CustomerOwnedBy(userId)).Some? ==>
      var customerId := old(db.customers)[FirstIndex(old(db.customers), CustomerOwnedBy(userId)).value].customerId;
      if accessToken.None? || processorToken.None? then
        resp == Response(500, Error("Failed to create funding source")) && request.None? && unchanged(db)
      else
        && request == Some(FundingSourceRequest(customerId, processorToken.value, FundingSourceName))
        && match created
           case PostFailed => resp == Response(500, Error("Failed to create funding source")) && unchanged(db)
           case Located(location) =>
             var id := old(db.nextId);
             var sourceId := LastSegment(location, '/');
             && db.fundingSources == old(db.fundingSources) + [FundingSourceRow(id, userId, sourceId, FundingSourceName, "unverified")]
             && db.nextId == id + 1
             && resp == Response(200, FundingSourceCreated(sourceId))
  {
    if !(Present(publicToken) && Present(accountId)) {
      return Response(400, Error("Missing Plaid token or account id")), None, [];
    }
    var found := FirstIndex(db.customers, CustomerOwnedBy(userId));
    if found.None? {
      return Response(404, Error("Dwolla customer not found")), None, [];
    }
    var customerId := db.customers[found.value].customerId;
    calls := [ExchangeToken(publicToken.value)];
    if accessToken.None? {
      return Response(500, Error("Failed to create funding source")), None, calls;
    }
    calls := calls + [ProcessorToken(accessToken.value, accountId.value, "dwolla")];
    if processorToken.None? {
      return Response(500, Error("Failed to create funding source")), None, calls;
    }
    request := Some(FundingSourceRequest(customerId, processorToken.value, FundingSourceName));
    match created {
      case PostFailed =>
        resp := Response(500, Error("Failed to create funding source"));
      case Located(location) =>
        var sourceId := LastSegment(location, '/');
        db.fundingSources := db.fundingSources + [FundingSourceRow(db.nextId, userId, sourceId, FundingSourceName, "unverified")];
        db.nextId := db.nextId + 1;
        resp := Response(200, FundingSourceCreated(sourceId));
    }
  }

  /** A newly stored funding source is the one a later payment by its owner, naming its id, finds. */
  lemma NewFundingSourceIsPayable(sources: seq<FundingSourceRow>, row: FundingSourceRow)
    requires forall i :: 0 <= i < |sources| ==> sources[i].id < row.id
    ensures FirstIndex(sources + [row], SourceOwnedBy(row.id, row.userId)) == Some(|sources|)
  {
    FirstIndexAppend(sources, row, SourceOwnedBy(row.id, row.userId));
  }

  // ------------------------------------------------ the `{ rows }` destructuring

  // `syncDwollaCustomerStatus` and `createFundingSource` read their customer lookup as
  // `const { rows } = await pool.query(...)`, while every other query of the module indexes
  // the result directly (`existing.length`, `customerRes[0]`): the driver resolves to the
  // array of rows, which has no `rows` property. `rows[0]` then throws and the handler's
  // catch answers 500. The methods above model the evidently intended lookup.

  /** `syncDwollaCustomerStatus` as written: past the 401 check, every request fails. */
  function SyncStatusAsWritten(customers: seq<CustomerRow>, userId: Option<int>, fetched: Option<string>): Response {
    if !NonZero(userId) then Response(401, Error("Unauthorized"))
    else Response(500, Error("Failed to sync Dwolla customer status"))
  }

  /** Every authenticated caller gets a 500 from the handler as written, whatever the table holds
      and whatever the network would report: a caller with a stored customer included, where
      `SyncDwollaCustomerStatus` answers 200 with the reported status. */
  lemma SyncStatusAsWrittenFailsForStoredCustomer(customers: seq<CustomerRow>, userId: int, fetched: Option<string>)
    requires userId != 0
    ensures SyncStatusAsWritten(customers, Some(userId), fetched).status == 500
    ensures fetched.Some? ==> SyncStatusAsWritten(customers, Some(userId), fetched) != Response(200, CustomerStatus(fetched.value))
  {
  }

  /** `createFundingSource` as written: past the 400 check, every request fails before the
      aggregator is called. */
  function CreateFundingSourceAsWritten(customers: seq<CustomerRow>, userId: int, publicToken: Option<string>,
                                        accountId: Option<string>)
    : (Response, Option<FundingSourceRequest>, seq<AggregatorRequest>) {
    if !(Present(publicToken) && Present(accountId)) then (Response(400, Error("Missing Plaid token or account id")), None, [])
    else (Response(500, Error("Failed to create funding source")), None, [])
  }

  /** Every caller past the 400 check gets a 500 and neither an aggregator call nor a funding-source request is sent, whatever
      the table holds: a caller with a stored customer included, for whom `CreateFundingSource`
      sends the request and stores the new source. */
  lemma CreateFundingSourceAsWrittenSendsNothing(customers: seq<CustomerRow>, userId: int, publicToken: string,
                                                 accountId: string)
    requires publicToken != [] && accountId != []
    ensures CreateFundingSourceAsWritten(customers, userId, Some(publicToken), Some(accountId)).1.None?
    ensures CreateFundingSourceAsWritten(customers, userId, Some(publicToken), Some(accountId)).0.status == 500
    ensures CreateFundingSourceAsWritten(customers, userId, Some(publicToken), Some(accountId)).2 == []
  {
  }

  // -------------------------------------------------------------- createPayment

  function FundingSourceHref(sourceId: string): string { ApiBase + "/funding-sources/" + sourceId }
  function CustomerHref(customerId: string): string { ApiBase + "/customers/" + customerId }

  /** `createPayment` (the caller is authenticated): a transfer from the caller's own funding
      source to the caller's own customer record, recorded as a pending payment. */
  method CreatePayment(db: Db, userId: int, creditCardId: Option<int>, fundingSourceId: Option<int>,
                       amount: Option<int>, transfer: Post, now: int)
    returns (resp: Response, request: Option<TransferRequest>)
    requires db.Valid()
    modifies db`payments, db`nextId
    ensures db.Valid()
    ensures !(NonZero(creditCardId) && NonZero(fundingSourceId) && NonZero(amount)) ==>
      resp == Response(400, Error("Missing payment details")) && request.None? && unchanged(db)
    ensures NonZero(creditCardId) && NonZero(fundingSourceId) && NonZero(amount) ==>
      var customer := FirstIndex(old(db.customers), CustomerOwnedBy(userId));
      var source := FirstIndex(old(db.fundingSources), SourceOwnedBy(fundingSourceId.value, userId));
      if customer.None? then
        resp == Response(404, Error("Dwolla customer not found")) && request.None? && unchanged(db)
      else if source.None? then
        resp == Response(404, Error("Funding source not found")) && request.None? && unchanged(db)
      else
        && request == Some(TransferRequest(FundingSourceHref(old(db.fundingSources)[source.value].fundingSourceId),
                                           CustomerHref(old(db.customers)[customer.value].customerId),
                                           amount.value, "USD"))
        && match transfer
           case PostFailed => resp == Response(500, Error("Payment failed")) && unchanged(db)
           case Located(location) =>
             var id := old(db.nextId);
             var transferId := LastSegment(location, '/');
             && db.payments == old(db.payments) + [PaymentRow(id, userId, creditCardId.value, fundingSourceId.value,
                                                              amount.value, transferId, "pending", now)]
             && db.nextId == id + 1
             && resp == Response(200, PaymentCreated(transferId, "pending"))
  {
    if !(NonZero(creditCardId) && NonZero(fundingSourceId) && NonZero(amount)) {
      return Response(400, Error("Missing payment details")), None;
    }
    var customer := FirstIndex(db.customers, CustomerOwnedBy(userId));
    if customer.None? {
      return Response(404, Error("Dwolla customer not found")), None;
    }
    var source := FirstIndex(db.fundingSources, SourceOwnedBy(fundingSourceId.value, userId));
    if source.None? {
      return Response(404, Error("Funding source not found")), None;
    }
    request := Some(TransferRequest(FundingSourceHref(db.fundingSources[source.value].fundingSourceId),
                                    CustomerHref(db.customers[customer.value].customerId), amount.value, "USD"));
    match transfer {
      case PostFailed =>
        resp := Response(500, Error("Payment failed"));
      case Located(location) =>
        var transferId := LastSegment(location, '/');
        db.payments := db.payments + [PaymentRow(db.nextId, userId, creditCardId.value, fundingSourceId.value,
                                                 amount.value, transferId, "pending", now)];
        db.nextId := db.nextId + 1;
        resp := Response(200, PaymentCreated(transferId, "pending"));
    }
  }

  /** The transfer's source names the funding source, and its destination the customer, by the
      trailing segment of the reference, as every id the network hands back is read. */
  lemma TransferLinksRoundTrip(sourceId: string, customerId: string)
    requires '/' !in sourceId && '/' !in customerId
    ensures LastSegment(FundingSourceHref(sourceId), '/') == sourceId
    ensures LastSegment(CustomerHref(customerId), '/') == customerId
  {
    assert FundingSourceHref(sourceId) == ApiBase + "/funding-sources" + "/" + sourceId;
    ResourceIdRoundTrip(ApiBase + "/funding-sources", sourceId);
    assert CustomerHref(customerId) == ApiBase + "/customers" + "/" + customerId;
    ResourceIdRoundTrip(ApiBase + "/customers", customerId);
  }
}
