/** The Bill record. Its schema file is not part of this model; the record
    holds the fields the bill handlers read or write, each optional because
    a bill is built from the request body as given. */
module BillRecord {
  import opened Common

  datatype Bill = Bill(
    eventId: Option<Id>,
    agreementId: Option<Id>,
    userId: Option<Id>,
    officiantId: Option<Id>,
    amount: Option<int>,
    status: Option<string>)
}
