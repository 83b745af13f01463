/** The four raw tables the generator writes and the warehouse loads:
    users, ab_assignments, events and orders.

    Timestamps are whole minutes after the campaign start (2024-10-01 00:00);
    money is integer cents. */
module Records {

  datatype Option<T> = None | Some(value: T)

  const MINUTES_PER_HOUR: int := 60
  const MINUTES_PER_DAY: int := 1440

  /** The `event_type` column: "page_view", "add_to_cart" or "purchase". */
  datatype EventType = PageView | AddToCart | Purchase

  const EXPERIMENT_ID: string := "checkout_banner_v1"
  const TREATMENT: string := "treatment"
  const CONTROL: string := "control"

  /** A row of `users`. */
  datatype User = User(userId: string, signupDt: int, country: string, device: string)

  /** A row of `ab_assignments`. */
  datatype Assignment = Assignment(userId: string, experimentId: string, variant: string, assignedDt: int)

  /** A row of `events`; `orderId` and `revenue` are NULL except on purchases. */
  datatype Event = Event(
    userId: string,
    sessionId: string,
    eventTs: int,
    eventType: EventType,
    orderId: Option<string>,
    revenue: Option<int>)

  /** A row of `orders`. */
  datatype Order = Order(orderId: string, userId: string, orderTs: int, revenue: int)

  /** `SUM(CASE WHEN event_type = t THEN 1 ELSE 0 END)` over `ev`. */
  function CountType(ev: seq<Event>, t: EventType): (n: nat)
    ensures n <= |ev|
    ensures n == 0 <==> forall i :: 0 <= i < |ev| ==> ev[i].eventType != t
  {
    if ev == [] then 0
    else CountType(ev[..|ev| - 1], t) + (if ev[|ev| - 1].eventType == t then 1 else 0)
  }
}
