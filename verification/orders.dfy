/** The `cardOrder` table the checkout and webhook routes write: one row per
    checkout attempt, created with an empty session id, given the provider's
    session id once the session exists, and flagged paid when the provider
    reports the checkout complete. It is a table of its own, unrelated to the
    Card table of the card gateway. */
module Orders {
  datatype Order = Order(
    id: string,
    recipientName: string,
    message: string,
    cardType: string,
    stripeSessionId: string,
    paid: bool)

  /** Two orders that differ at most in their paid flag. */
  predicate SameButPaid(a: Order, b: Order) {
    a.(paid := false) == b.(paid := false)
  }

  /** `updateMany({ where: { stripeSessionId }, data: { paid: true } })`:
      exactly the orders of the session become paid, nothing else changes. */
  function MarkPaid(orders: seq<Order>, sessionId: string): (r: seq<Order>)
    ensures |r| == |orders|
    ensures forall i :: 0 <= i < |r| ==>
      SameButPaid(r[i], orders[i]) && (r[i].paid <==> orders[i].paid || orders[i].stripeSessionId == sessionId)
    decreases |orders|
  {
    if |orders| == 0 then []
    else
      var o := orders[0];
      [if o.stripeSessionId == sessionId then o.(paid := true) else o] + MarkPaid(orders[1..], sessionId)
  }

  /** Marking the same session paid twice is marking it once. */
  lemma MarkPaidIdempotent(orders: seq<Order>, sessionId: string)
    ensures MarkPaid(MarkPaid(orders, sessionId), sessionId) == MarkPaid(orders, sessionId)
  {
    var once := MarkPaid(orders, sessionId);
    var twice := MarkPaid(once, sessionId);
    assert forall i :: 0 <= i < |once| ==> twice[i] == once[i];
  }

  /** Marking two sessions paid gives the same table in either order. */
  lemma MarkPaidCommutes(orders: seq<Order>, s: string, t: string)
    ensures MarkPaid(MarkPaid(orders, s), t) == MarkPaid(MarkPaid(orders, t), s)
  {
    var a, b := MarkPaid(MarkPaid(orders, s), t), MarkPaid(MarkPaid(orders, t), s);
    assert forall i :: 0 <= i < |a| ==> a[i] == b[i];
  }

  /** `create` with the route's data: a new unpaid order with the given id. */
  function Placeholder(id: string, recipientName: string, message: string, cardType: string): Order {
    Order(id, recipientName, message, cardType, "", false)
  }

  /** `update({ where: { id }, data: { stripeSessionId } })`: the order with
      that id gets the session id, every other order is left alone. */
  function SetSessionId(orders: seq<Order>, id: string, sessionId: string): (r: seq<Order>)
    ensures |r| == |orders|
    ensures forall i :: 0 <= i < |r| ==>
      if orders[i].id == id then r[i] == orders[i].(stripeSessionId := sessionId) else r[i] == orders[i]
    decreases |orders|
  {
    if |orders| == 0 then []
    else
      var o := orders[0];
      [if o.id == id then o.(stripeSessionId := sessionId) else o] + SetSessionId(orders[1..], id, sessionId)
  }
}
