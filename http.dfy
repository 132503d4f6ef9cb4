/// What a handler sends back: an HTTP status and a JSON body. Each body shape
/// the handlers produce is one constructor.
module Http {
  import opened Common
  import opened Ledger

  /** The user columns `login` and `getMe` return: never the password hash. */
  datatype PublicUser = PublicUser(
    id: int,
    email: string,
    firstName: string,
    lastName: string,
    creditScore: int,
    isVerified: bool)

  /** The columns `register` returns from its insert. */
  datatype NewUser = NewUser(id: int, firstName: string, lastName: string, email: string, creditScore: int)

  /** A payment joined with the names of its card and funding source (`LEFT JOIN`: absent when no row matches). */
  datatype PaymentView = PaymentView(payment: PaymentRow, cardName: Option<string>, bankName: Option<string>)

  datatype CustomerSummary = CustomerSummary(customerId: string, status: string)

  datatype Body =
    | Error(message: string)
      /** A 500 whose body is whatever the provider's error carried. */
    | ProviderError
    | Customer(customerId: string, status: string)
    | CustomerStatus(status: string)
    | FundingSourceCreated(fundingSourceId: string)
    | PaymentCreated(paymentId: string, status: string)
    | TransferCreated(transferId: string)
    | Cards(cards: seq<CardRow>)
    | CreditCards(creditCards: seq<CardRow>)
    | Registered(newUser: NewUser, token: string)
    | LoggedIn(token: string, user: PublicUser)
    | Me(user: PublicUser, cards: seq<CardRow>, fundingSources: seq<FundingSourceRow>,
         payments: seq<PaymentView>, dwolla: Option<CustomerSummary>)

  datatype Response = Response(status: int, body: Body)

  function PublicView(u: User): PublicUser {
    PublicUser(u.id, u.email, u.firstName, u.lastName, u.creditScore, u.isVerified)
  }
}
