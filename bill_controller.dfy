/** The bill handlers: recording a payment (which completes a legacy event
    bill's event), looking a bill up by event or agreement, and changing a
    bill's status. */
module BillController {
  import opened Common
  import opened EventSchema
  import opened BillRecord
  import opened Store

  /** The event a paid bill closes: completed, priced at the bill's amount
      (unset when the bill carries none). */
  function Closed(e: Event, amount: Option<int>): (c: Event)
    ensures c.status == EventStatus.Completed && c.price == amount
    ensures c.(status := e.status, price := e.price) == e
    ensures EventSchema.Storable(e) ==> EventSchema.Storable(c)
  {
    e.(status := EventStatus.Completed, price := amount)
  }

  /** createBill: a bill naming an event needs that event, which it then
      closes; a bill without one touches no event. Both parties are notified
      and the bill is stored as sent. */
  method CreateBill(db: Db, bill: Bill, newId: Id) returns (r: Reply)
    requires newId !in db.bills
    modifies db`events, db`bills, db`notices
    ensures r == NotFound <==> Truthy(bill.eventId) && bill.eventId.value !in old(db.events)
    ensures r != NotFound ==> r == Ok
    ensures r == NotFound ==>
      db.events == old(db.events) && db.bills == old(db.bills) && db.notices == old(db.notices)
    ensures r == Ok ==>
      && db.bills == old(db.bills)[newId := bill]
      && db.notices == old(db.notices) + [Notice(bill.officiantId, BillPaidMsg), Notice(bill.userId, BillMadeMsg)]
      && (Truthy(bill.eventId) ==>
            db.events == old(db.events)[bill.eventId.value := Closed(old(db.events)[bill.eventId.value], bill.amount)])
      && (!Truthy(bill.eventId) ==> db.events == old(db.events))
  {
    if Truthy(bill.eventId) {
      var id := bill.eventId.value;
      if id !in db.events {
        return NotFound;
      }
      db.events := db.events[id := Closed(db.events[id], bill.amount)];
    }
    db.notices := db.notices + [Notice(bill.officiantId, BillPaidMsg), Notice(bill.userId, BillMadeMsg)];
    db.bills := db.bills[newId := bill];
    r := Ok;
  }

  /** Closing an event touches no other event and keeps the set of events. */
  lemma ClosingTouchesOneEvent(events: map<Id, Event>, id: Id, amount: Option<int>)
    requires id in events
    ensures var after := events[id := Closed(events[id], amount)];
      && after.Keys == events.Keys
      && (forall k :: k in events && k != id ==> after[k] == events[k])
      && after[id].status == EventStatus.Completed
      && after[id].title == events[id].title && after[id].userId == events[id].userId
  {
  }

  /** The bills filed under an event id, and under an agreement id. */
  function BillsForEvent(bills: map<Id, Bill>, id: Id): (ks: set<Id>)
    ensures forall k :: k in ks <==> k in bills && bills[k].eventId == Some(id)
  {
    set k | k in bills && bills[k].eventId == Some(id)
  }

  function BillsForAgreement(bills: map<Id, Bill>, id: Id): (ks: set<Id>)
    ensures forall k :: k in ks <==> k in bills && bills[k].agreementId == Some(id)
  {
    set k | k in bills && bills[k].agreementId == Some(id)
  }

  /** getBillById: a bill filed under the id as an event wins; only when
      there is none is the id tried as an agreement; not found only when both
      lookups fail. Which of several matching bills is the store's choice. */
  method GetBillById(db: Db, id: Id) returns (r: Option<Id>)
    ensures BillsForEvent(db.bills, id) != {} ==> r.Some? && r.value in BillsForEvent(db.bills, id)
    ensures BillsForEvent(db.bills, id) == {} ==>
      (r.Some? <==> BillsForAgreement(db.bills, id) != {}) &&
      (r.Some? ==> r.value in BillsForAgreement(db.bills, id))
    ensures r.None? <==> BillsForEvent(db.bills, id) == {} && BillsForAgreement(db.bills, id) == {}
  {
    var byEvent := BillsForEvent(db.bills, id);
    r := None;
    if byEvent != {} {
      var k :| k in byEvent;
      r := Some(k);
    }
    if r.None? {
      var byAgreement := BillsForAgreement(db.bills, id);
      if byAgreement != {} {
        var k :| k in byAgreement;
        r := Some(k);
      }
    }
  }

  /** A stored bill is filed under its event id and under its agreement id,
      so looking up either finds a bill; under its agreement id it is only
      reached by the second lookup unless its event id is the same. */
  lemma StoredBillIsFound(bills: map<Id, Bill>, newId: Id, bill: Bill)
    ensures bill.eventId.Some? ==> newId in BillsForEvent(bills[newId := bill], bill.eventId.value)
    ensures bill.agreementId.Some? ==> newId in BillsForAgreement(bills[newId := bill], bill.agreementId.value)
    ensures bill.agreementId.Some? && bill.eventId != bill.agreementId ==>
      newId !in BillsForEvent(bills[newId := bill], bill.agreementId.value)
  {
  }

  /** updateBillStatus: only the status changes, and an absent status
      leaves the bill as it was; an unknown id is not found. */
  method UpdateBillStatus(db: Db, id: Id, status: Option<string>) returns (r: Reply)
    modifies db`bills
    ensures r == Ok <==> id in old(db.bills)
    ensures r != Ok ==> r == NotFound && db.bills == old(db.bills)
    ensures r == Ok ==>
      && db.bills.Keys == old(db.bills).Keys
      && db.bills[id].status == (if status.Some? then status else old(db.bills)[id].status)
      && db.bills[id].(status := old(db.bills)[id].status) == old(db.bills)[id]
      && forall k :: k in old(db.bills) && k != id ==> db.bills[k] == old(db.bills)[k]
  {
    if id !in db.bills {
      return NotFound;
    }
    if status.Some? {
      db.bills := db.bills[id := db.bills[id].(status := status)];
    }
    r := Ok;
  }
}
