/// `payCreditCard`: a transfer from the caller's funding source to a fixed
/// placeholder destination, recorded as a pending payment.
module PaymentsController {
  import opened Common
  import opened Text
  import opened Tables
  import opened Ledger
  import opened Http
  import DwollaController

  const SandboxBase := "https://api-sandbox.dwolla.com"

  /** The destination every transfer goes to: a placeholder funding source. */
  const DestinationHref := SandboxBase + "/funding-sources/DESTINATION_ID"

  function SandboxSourceHref(sourceId: string): string { SandboxBase + "/funding-sources/" + sourceId }

  /** The caller is authenticated; `transfer` is the network's answer to the transfer request. */
  method PayCreditCard(db: Db, userId: int, creditCardId: Option<int>, fundingSourceId: Option<int>,
                       amount: Option<int>, transfer: DwollaController.Post, now: int)
    returns (resp: Response, request: Option<DwollaController.TransferRequest>)
    requires db.Valid()
    modifies db`payments, db`nextId
    ensures db.Valid()
    ensures !(NonZero(creditCardId) && NonZero(fundingSourceId) && NonZero(amount)) ==>
      resp == Response(400, Error("Missing parameters")) && request.None? && unchanged(db)
    ensures NonZero(creditCardId) && NonZero(fundingSourceId) && NonZero(amount) ==>
      var source := FirstIndex(old(db.fundingSources), SourceOwnedBy(fundingSourceId.value, userId));
      if source.None? then
        resp == Response(404, Error("Funding source not found")) && request.None? && unchanged(db)
      else
        && request == Some(DwollaController.TransferRequest(
             SandboxSourceHref(old(db.fundingSources)[source.value].fundingSourceId), DestinationHref,
             amount.value, "USD"))
        && match transfer
           case PostFailed => resp == Response(500, Error("Failed to pay credit card")) && unchanged(db)
           case Located(location) =>
             var id := old(db.nextId);
             var transferId := LastSegment(location, '/');
             && db.payments == old(db.payments) + [PaymentRow(id, userId, creditCardId.value, fundingSourceId.value,
                                                              amount.value, transferId, "pending", now)]
             && db.nextId == id + 1
             && resp == Response(200, TransferCreated(transferId))
             && resp.body.transferId == db.payments[|db.payments| - 1].transferId
  {
    if !(NonZero(creditCardId) && NonZero(fundingSourceId) && NonZero(amount)) {
      return Response(400, Error("Missing parameters")), None;
    }
    var source := FirstIndex(db.fundingSources, SourceOwnedBy(fundingSourceId.value, userId));
    if source.None? {
      return Response(404, Error("Funding source not found")), None;
    }
    request := Some(DwollaController.TransferRequest(
      SandboxSourceHref(db.fundingSources[source.value].fundingSourceId), DestinationHref, amount.value, "USD"));
    match transfer {
      case PostFailed =>
        resp := Response(500, Error("Failed to pay credit card"));
      case Located(location) =>
        var transferId := LastSegment(location, '/');
        db.payments := db.payments + [PaymentRow(db.nextId, userId, creditCardId.value, fundingSourceId.value,
                                                 amount.value, transferId, "pending", now)];
        db.nextId := db.nextId + 1;
        resp := Response(200, TransferCreated(transferId));
    }
  }

  /** The transfer's source reads back as the caller's funding-source id, and its destination as
      the placeholder `DESTINATION_ID`, never as any record of the caller's. */
  lemma DestinationIsPlaceholder(sourceId: string)
    requires '/' !in sourceId
    ensures LastSegment(SandboxSourceHref(sourceId), '/') == sourceId
    ensures LastSegment(DestinationHref, '/') == "DESTINATION_ID"
  {
    assert SandboxSourceHref(sourceId) == SandboxBase + "/funding-sources" + "/" + sourceId;
    ResourceIdRoundTrip(SandboxBase + "/funding-sources", sourceId);
    assert DestinationHref == SandboxBase + "/funding-sources" + "/" + "DESTINATION_ID";
    ResourceIdRoundTrip(SandboxBase + "/funding-sources", "DESTINATION_ID");
  }
}
