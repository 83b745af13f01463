/** The synthetic data generator (`main` of src/generate/make_data.py):
    a user roster, a sticky A/B assignment per user, and per user a run of
    sessions, each a page view optionally followed by an add-to-cart and then
    a purchase, every purchase mirrored into the orders table.

    Randomness is the explicit stream `rng` (see module Draws) and Python's
    string `hash` is the explicit function `hash`. */
module MakeData {
  import opened Records
  import opened Draws
  import Decimal

  /** The constants `main` runs with. */
  const N_USERS: nat := 5000
  const DAYS: nat := 60
  const COUNTRIES: seq<string> := ["US", "US", "US", "CA"]
  const DEVICES: seq<string> := ["ios", "android", "web"]
  /** random() < 0.25 opens the cart. */
  const CART_PER_MILLE: nat := 250
  /** Purchase probability given a cart, per variant: 0.06 and 0.072. */
  const BASE_CONV: map<string, nat> := map[CONTROL := 60, TREATMENT := 72]
  const MAX_CART_DELAY: int := 20
  const MAX_PURCHASE_DELAY: int := 30
  /** max(5, ...) dollars. */
  const MIN_REVENUE_CENTS: int := 500

  // ---------------------------------------------------------------- roster

  /** `f"u{i:05d}"`. */
  function UserId(i: nat): (id: string)
    ensures |id| >= 6 && id[0] == 'u'
    ensures Decimal.AllDigits(id[1..]) && Decimal.Value(id[1..]) == i
  {
    Decimal.PadDecimalRoundTrip(i, 5);
    var id := "u" + Decimal.PadDecimal(i, 5);
    assert id[1..] == Decimal.PadDecimal(i, 5);
    id
  }

  /** Distinct indices give distinct user ids (for every index, not only
      below 100000): the digits after "u" read back as the index. */
  lemma UserIdInjective(i: nat, j: nat)
    requires UserId(i) == UserId(j)
    ensures i == j
  {
  }

  /** Below 100000 every id is "u" and exactly five digits. */
  lemma UserIdLength(i: nat)
    requires i < 100000
    ensures |UserId(i)| == 6
  {
    assert Decimal.Pow10(5) == 100000;
    Decimal.DigitsLength(i, 5);
  }

  function RosterIds(users: seq<User>): set<string> {
    set i | 0 <= i < |users| :: users[i].userId
  }

  /** `start + timedelta(days=randint(0, days - 1))`. */
  function SignupDt(x: int, days: nat): (t: int)
    requires days >= 1
    ensures 0 <= t <= (days - 1) * MINUTES_PER_DAY && t % MINUTES_PER_DAY == 0
  {
    var d := RandInt(x, 0, days - 1);
    assert (d * MINUTES_PER_DAY) % MINUTES_PER_DAY == 0;
    d * MINUTES_PER_DAY
  }

  /** Row `i` of the users frame. */
  function MakeUser(i: nat, n: nat, days: nat, rng: Rng): (u: User)
    requires days >= 1
    ensures u.userId == UserId(i) && u.country in COUNTRIES && u.device in DEVICES
    ensures 0 <= u.signupDt <= (days - 1) * MINUTES_PER_DAY && u.signupDt % MINUTES_PER_DAY == 0
  {
    User(UserId(i), SignupDt(rng(i), days), Choice(rng(n + i), COUNTRIES), Choice(rng(2 * n + i), DEVICES))
  }

  /** The users frame: three list comprehensions, each consuming `n` draws in
      turn (signup days, then countries, then devices). */
  function MakeUsers(n: nat, days: nat, rng: Rng): (users: seq<User>)
    requires days >= 1
    ensures |users| == n
    ensures forall i :: 0 <= i < n ==> users[i].userId == UserId(i)
    ensures forall i :: 0 <= i < n ==>
      0 <= users[i].signupDt <= (days - 1) * MINUTES_PER_DAY && users[i].signupDt % MINUTES_PER_DAY == 0
    ensures forall i :: 0 <= i < n ==> users[i].country in COUNTRIES && users[i].device in DEVICES
  {
    seq(n, i requires 0 <= i < n => MakeUser(i, n, days, rng))
  }

  // ---------------------------------------------------------------- A/B assignment

  /** `"treatment" if hash(x) % 2 == 0 else "control"`; Python's `%` with a
      positive divisor agrees with Dafny's. */
  function VariantOf(hash: string -> int, userId: string): (v: string)
    ensures v == TREATMENT || v == CONTROL
    ensures v == TREATMENT <==> hash(userId) % 2 == 0
  {
    if hash(userId) % 2 == 0 then TREATMENT else CONTROL
  }

  /** The assignments frame: a copy of the user_id column with the three
      other columns set; assigned_dt is the campaign start. */
  function MakeAssignments(users: seq<User>, hash: string -> int): (a: seq<Assignment>)
    ensures |a| == |users|
    ensures forall i :: 0 <= i < |a| ==>
      a[i].userId == users[i].userId && a[i].experimentId == EXPERIMENT_ID && a[i].assignedDt == 0
    ensures forall i :: 0 <= i < |a| ==> a[i].variant in BASE_CONV
    ensures forall i, j :: 0 <= i < |a| && 0 <= j < |a| && a[i].userId == a[j].userId ==>
      a[i].variant == a[j].variant
  {
    seq(|users|, i requires 0 <= i < |users| =>
      Assignment(users[i].userId, EXPERIMENT_ID, VariantOf(hash, users[i].userId), 0))
  }

  /** `assignments.loc[assignments["user_id"] == uid, "variant"].iloc[0]`:
      the variant of the first row for `uid`, None where `.iloc[0]` would raise. */
  function FirstVariant(a: seq<Assignment>, userId: string): (r: Option<string>)
    ensures r.Some? <==> exists i :: 0 <= i < |a| && a[i].userId == userId
    ensures r.Some? ==>
      exists i :: 0 <= i < |a| && a[i].userId == userId && r.value == a[i].variant &&
        (forall j :: 0 <= j < i ==> a[j].userId != userId)
  {
    if a == [] then None
    else if a[0].userId == userId then Some(a[0].variant)
    else
      var r := FirstVariant(a[1..], userId);
      assert forall i :: 1 <= i < |a| ==> a[i] == a[1..][i - 1];
      r
  }

  /** The lookup in the session loop finds exactly the variant the hash assigns. */
  lemma LookupIsSticky(users: seq<User>, hash: string -> int, i: nat)
    requires i < |users|
    ensures FirstVariant(MakeAssignments(users, hash), users[i].userId) == Some(VariantOf(hash, users[i].userId))
    ensures VariantOf(hash, users[i].userId) in BASE_CONV
  {
    var a := MakeAssignments(users, hash);
    assert a[i].userId == users[i].userId;
  }

  // ---------------------------------------------------------------- identifiers

  /** The parts joined by underscores, the way the generator's f-strings
      lay out an id. */
  function Underscored(parts: seq<string>): (s: string)
    requires |parts| >= 1
    ensures |s| >= |parts[0]| && s[..|parts[0]|] == parts[0]
  {
    if |parts| == 1 then parts[0] else parts[0] + "_" + Underscored(parts[1..])
  }

  /** `f"s_{user_id}_{int(session_dt.timestamp())}_{tag}"`. */
  function SessionId(userId: string, epochSeconds: nat, tag: nat): (id: string)
    ensures |id| >= 2 + |userId| && id[..2] == "s_" && id[2..2 + |userId|] == userId
  {
    var parts := ["s", userId, Decimal.Digits(epochSeconds), Decimal.Digits(tag)];
    assert parts[1..][0] == userId;
    var rest := Underscored(parts[1..]);
    assert rest[..|userId|] == userId;
    Underscored(parts)
  }

  /** `f"o_{user_id}_{int(dt3.timestamp())}_{tag}"`. */
  function OrderId(userId: string, epochSeconds: nat, tag: nat): (id: string)
    ensures |id| >= 2 + |userId| && id[..2] == "o_" && id[2..2 + |userId|] == userId
  {
    var parts := ["o", userId, Decimal.Digits(epochSeconds), Decimal.Digits(tag)];
    assert parts[1..][0] == userId;
    var rest := Underscored(parts[1..]);
    assert rest[..|userId|] == userId;
    Underscored(parts)
  }

  // ---------------------------------------------------------------- the event log

  /** A session start: day 0..days-1 plus hour 0..23, on a whole hour. */
  predicate InWindow(ts: int, days: nat) {
    0 <= ts <= (days - 1) * MINUTES_PER_DAY + 23 * MINUTES_PER_HOUR && ts % MINUTES_PER_HOUR == 0
  }

  /** `start + timedelta(days=randint(0, days - 1), hours=randint(0, 23))`. */
  function SessionStart(dayDraw: int, hourDraw: int, days: nat): (ts: int)
    requires days >= 1
    ensures InWindow(ts, days)
  {
    var day := RandInt(dayDraw, 0, days - 1);
    var hour := RandInt(hourDraw, 0, 23);
    var hours := 24 * day + hour;
    assert (hours * MINUTES_PER_HOUR) % MINUTES_PER_HOUR == 0;
    hours * MINUTES_PER_HOUR
  }

  predicate SameSession(a: Event, b: Event) {
    a.userId == b.userId && a.sessionId == b.sessionId
  }

  /** `e` is the page view that opens a session. */
  predicate Opens(e: Event, days: nat) {
    e.eventType == PageView && e.orderId == None && e.revenue == None && InWindow(e.eventTs, days)
  }

  /** `e` is the funnel step that directly follows `prev` in the same session. */
  predicate Follows(prev: Event, e: Event) {
    SameSession(prev, e) &&
    ((e.eventType == AddToCart && prev.eventType == PageView &&
      1 <= e.eventTs - prev.eventTs <= MAX_CART_DELAY && e.orderId == None && e.revenue == None) ||
     (e.eventType == Purchase && prev.eventType == AddToCart &&
      1 <= e.eventTs - prev.eventTs <= MAX_PURCHASE_DELAY &&
      e.orderId.Some? && e.revenue.Some? && e.revenue.value >= MIN_REVENUE_CENTS))
  }

  /** Every event either opens a session or is the next funnel step after its
      predecessor in the list. */
  predicate EventLog(ev: seq<Event>, days: nat) {
    && (|ev| > 0 ==> Opens(ev[0], days))
    && forall i :: 0 < i < |ev| ==> Opens(ev[i], days) || Follows(ev[i - 1], ev[i])
  }

  /** The events one session appends. */
  predicate SessionBlock(b: seq<Event>, userId: string, days: nat) {
    1 <= |b| <= 3 && Opens(b[0], days) && b[0].userId == userId &&
    forall i :: 1 <= i < |b| ==> Follows(b[i - 1], b[i])
  }

  /** The session id spells out the user id after its "s_" prefix. */
  predicate NamesUser(e: Event) {
    |e.sessionId| >= 2 + |e.userId| && e.sessionId[2..2 + |e.userId|] == e.userId
  }

  /** Every event belongs to a user of `ids` and names that user in its session id. */
  predicate Attributed(ev: seq<Event>, ids: set<string>) {
    forall j :: 0 <= j < |ev| ==> ev[j].userId in ids && NamesUser(ev[j])
  }

  predicate HasPageView(ev: seq<Event>, userId: string) {
    exists j :: 0 <= j < |ev| && ev[j].userId == userId && ev[j].eventType == PageView
  }

  /** Two logs one after the other make a log: the second starts with a page
      view that opens a session. */
  lemma LogAppend(a: seq<Event>, b: seq<Event>, days: nat)
    requires EventLog(a, days) && EventLog(b, days)
    ensures EventLog(a + b, days)
  {
    var ab := a + b;
    forall i | 0 < i < |ab|
      ensures Opens(ab[i], days) || Follows(ab[i - 1], ab[i])
    {
      if i < |a| {
        assert ab[i] == a[i] && ab[i - 1] == a[i - 1];
      } else if i > |a| {
        assert ab[i] == b[i - |a|] && ab[i - 1] == b[i - 1 - |a|];
      } else {
        assert ab[i] == b[0];
      }
    }
    if a == [] {
      assert ab == b;
    } else {
      assert ab[0] == a[0];
    }
  }

  /** Every event of a session belongs to the session's user. */
  lemma {:induction false} SessionUser(b: seq<Event>, userId: string, days: nat, i: nat)
    requires SessionBlock(b, userId, days) && i < |b|
    ensures b[i].userId == userId
  {
    if i > 0 {
      assert Follows(b[i - 1], b[i]);
      SessionUser(b, userId, days, i - 1);
    }
  }

  /** The events of one user: a non-empty log, every purchase priced, every
      event of the user and spelling it in its session id. */
  predicate UserSegment(seg: seq<Event>, userId: string, days: nat) {
    |seg| >= 1 && UserLog(seg, userId, days)
  }

  /** The events of one user and their purchases priced, logged one after the other. */
  predicate UserLog(d: seq<Event>, userId: string, days: nat) {
    && EventLog(d, days) && AllPurchasesPriced(d)
    && forall i :: 0 <= i < |d| ==> d[i].userId == userId && NamesUser(d[i])
  }

  /** Appending one user's sessions to the log keeps it a log, appends their
      orders, keeps every event attributed to the roster and adds a page view
      of the user. */
  lemma ExtendLog(ev: seq<Event>, seg: seq<Event>, userId: string, days: nat, ids: set<string>)
    requires EventLog(ev, days) && AllPurchasesPriced(ev) && UserSegment(seg, userId, days)
    requires userId in ids && Attributed(ev, ids)
    ensures EventLog(ev + seg, days) && AllPurchasesPriced(ev + seg)
    ensures OrdersOf(ev + seg) == OrdersOf(ev) + OrdersOf(seg)
    ensures Attributed(ev + seg, ids)
    ensures forall x :: HasPageView(ev, x) ==> HasPageView(ev + seg, x)
    ensures HasPageView(ev + seg, userId)
  {
    LogAppend(ev, seg, days);
    OrdersOfAppend(ev, seg);
    var ab := ev + seg;
    forall j | 0 <= j < |ab| ensures ab[j].userId in ids && NamesUser(ab[j]) {
      if j < |ev| {
        assert ab[j] == ev[j];
      } else {
        assert ab[j] == seg[j - |ev|];
      }
    }
    forall x | HasPageView(ev, x) ensures HasPageView(ab, x) {
      var j :| 0 <= j < |ev| && ev[j].userId == x && ev[j].eventType == PageView;
      assert ab[j] == ev[j];
    }
    assert ab[|ev|] == seg[0];
  }

  // ---------------------------------------------------------------- events and orders

  function Purchases(ev: seq<Event>): (p: seq<Event>)
    ensures |p| == CountType(ev, Purchase)
    ensures forall e :: e in p <==> e in ev && e.eventType == Purchase
  {
    if ev == [] then []
    else
      var init, last := ev[..|ev| - 1], ev[|ev| - 1];
      assert ev == init + [last];
      if last.eventType == Purchase then Purchases(init) + [last] else Purchases(init)
  }

  lemma {:induction false} PurchasesAppend(a: seq<Event>, b: seq<Event>)
    ensures Purchases(a + b) == Purchases(a) + Purchases(b)
    decreases |b|
  {
    if b != [] {
      var init, last := b[..|b| - 1], b[|b| - 1];
      assert (a + b)[..|a + b| - 1] == a + init;
      assert (a + b)[|a + b| - 1] == last;
      PurchasesAppend(a, init);
    } else {
      assert a + b == a;
    }
  }

  predicate Priced(e: Event) {
    e.orderId.Some? && e.revenue.Some?
  }

  predicate AllPurchasesPriced(ev: seq<Event>) {
    forall e :: e in ev && e.eventType == Purchase ==> Priced(e)
  }

  /** Order `o` and event `e` agree on order id, user, time and revenue. */
  predicate Mirrors(o: Order, e: Event) {
    e.orderId == Some(o.orderId) && e.userId == o.userId && e.eventTs == o.orderTs && e.revenue == Some(o.revenue)
  }

  /** The order a purchase event mirrors. */
  function OrderOf(e: Event): (o: Order)
    requires Priced(e)
    ensures Mirrors(o, e)
  {
    Order(e.orderId.value, e.userId, e.eventTs, e.revenue.value)
  }

  /** The orders table a log determines: one order per purchase, in log order. */
  function OrdersOf(ev: seq<Event>): (orders: seq<Order>)
    requires AllPurchasesPriced(ev)
    ensures |orders| == CountType(ev, Purchase)
    ensures forall j :: 0 <= j < |orders| ==> orders[j] == OrderOf(Purchases(ev)[j])
  {
    var p := Purchases(ev);
    seq(|p|, j requires 0 <= j < |p| => OrderOf(p[j]))
  }

  /** A purchase in a log carries an order id and a revenue of at least the floor. */
  lemma PurchaseInLog(ev: seq<Event>, days: nat, e: Event)
    requires EventLog(ev, days) && e in ev && e.eventType == Purchase
    ensures Priced(e) && e.revenue.value >= MIN_REVENUE_CENTS
  {
    var i :| 0 <= i < |ev| && ev[i] == e;
    if i > 0 {
      assert Opens(ev[i], days) || Follows(ev[i - 1], ev[i]);
    }
  }

  lemma EventLogPriced(ev: seq<Event>, days: nat)
    requires EventLog(ev, days)
    ensures AllPurchasesPriced(ev)
  {
    forall e | e in ev && e.eventType == Purchase ensures Priced(e) {
      PurchaseInLog(ev, days, e);
    }
  }

  lemma OrdersOfAppend(a: seq<Event>, b: seq<Event>)
    requires AllPurchasesPriced(a) && AllPurchasesPriced(b)
    ensures AllPurchasesPriced(a + b)
    ensures OrdersOf(a + b) == OrdersOf(a) + OrdersOf(b)
  {
    PurchasesAppend(a, b);
  }

  /** Every order has its purchase event and every purchase event its order,
      at the same position among purchases, agreeing on id, user, time and revenue. */
  lemma OrdersMirrorPurchases(ev: seq<Event>, days: nat, j: nat)
    requires EventLog(ev, days) && j < CountType(ev, Purchase)
    ensures AllPurchasesPriced(ev)
    ensures Purchases(ev)[j] in ev && Purchases(ev)[j].eventType == Purchase
    ensures Mirrors(OrdersOf(ev)[j], Purchases(ev)[j]) && OrdersOf(ev)[j].revenue >= MIN_REVENUE_CENTS
  {
    EventLogPriced(ev, days);
    var e := Purchases(ev)[j];
    assert e in Purchases(ev);
    PurchaseInLog(ev, days, e);
  }

  /** A session places an order exactly when it reaches the purchase step. */
  lemma SessionOrders(b: seq<Event>, userId: string, days: nat)
    requires SessionBlock(b, userId, days)
    ensures AllPurchasesPriced(b)
    ensures |b| == 3 ==> Priced(b[2]) && OrdersOf(b) == [OrderOf(b[2])]
    ensures |b| < 3 ==> OrdersOf(b) == []
  {
    assert Purchases(b[..1]) == [] by {
      assert b[..1][..0] == [];
    }
    if |b| >= 2 {
      assert Follows(b[0], b[1]);
      assert b[..2][..1] == b[..1];
      assert Purchases(b[..2]) == [];
    }
    if |b| == 3 {
      assert Follows(b[1], b[2]);
      assert b[..3] == b && b[..2] == b[..3][..2];
      assert Purchases(b) == [b[2]];
    } else {
      assert b == b[..|b|];
    }
    forall i | 0 <= i < |b| && b[i].eventType == Purchase ensures Priced(b[i]) {
      assert i > 0 ==> Follows(b[i - 1], b[i]);
    }
  }

  // ---------------------------------------------------------------- session shape

  /** The index of the next page view after `s`, or the end of the log. */
  function NextOpen(ev: seq<Event>, s: nat): (t: nat)
    requires s < |ev|
    ensures s < t <= |ev|
    ensures t < |ev| ==> ev[t].eventType == PageView
    ensures forall j :: s < j < t ==> ev[j].eventType != PageView
    decreases |ev| - s
  {
    if s + 1 == |ev| || ev[s + 1].eventType == PageView then s + 1 else NextOpen(ev, s + 1)
  }

  function FunnelStage(j: nat): EventType
    requires j < 3
  {
    if j == 0 then PageView else if j == 1 then AddToCart else Purchase
  }

  /** A session in the log runs from its page view to the next one: at most
      three events, in funnel order (a purchase only after a cart), all of the
      same user and session, at strictly increasing times. */
  lemma SessionShape(ev: seq<Event>, days: nat, s: nat)
    requires EventLog(ev, days) && s < |ev| && ev[s].eventType == PageView
    ensures NextOpen(ev, s) <= s + 3
    ensures forall j :: s <= j < NextOpen(ev, s) ==>
      ev[j].eventType == FunnelStage(j - s) && SameSession(ev[s], ev[j])
    ensures forall j :: s < j < NextOpen(ev, s) ==> ev[j - 1].eventTs < ev[j].eventTs
  {
    var t := NextOpen(ev, s);
    if s + 3 < t {
      StepInSession(ev, days, s, s + 3);
    }
    forall j | s < j < t
      ensures j - s < 3 && ev[j].eventType == FunnelStage(j - s) && SameSession(ev[s], ev[j])
    {
      StepInSession(ev, days, s, j);
    }
    forall j | s < j < t ensures ev[j - 1].eventTs < ev[j].eventTs {
      StepInSession(ev, days, s, j);
    }
  }

  /** The j-th event after the page view at `s`, still before the next page view. */
  lemma {:induction false} StepInSession(ev: seq<Event>, days: nat, s: nat, j: nat)
    requires EventLog(ev, days) && s < |ev| && s < j < NextOpen(ev, s) && ev[s].eventType == PageView
    ensures j - s < 3 && ev[j].eventType == FunnelStage(j - s) && SameSession(ev[s], ev[j])
    ensures Follows(ev[j - 1], ev[j])
    decreases j
  {
    assert ev[j].eventType != PageView;
    assert Opens(ev[j], days) || Follows(ev[j - 1], ev[j]);
    if j - 1 > s {
      StepInSession(ev, days, s, j - 1);
    }
  }

  // ---------------------------------------------------------------- the generator

  /** The session from stage `stage` on, drawing from `k` on: stage 0 draws
      the start and the session tag and opens the session with a page view at
      minute `ts`; the page view (1) or the cart (2) is followed by the next
      stage when its coin says so, after a delay; a purchase (3) draws its
      order tag and revenue. */
  function FunnelFrom(userId: string, variant: string, days: nat, startEpoch: nat, rng: Rng,
    stage: nat, sessionId: string, ts: nat, k: nat): (r: (seq<Event>, nat))
    requires days >= 1 && stage < 4 && variant in BASE_CONV
    decreases 3 - stage
  {
    if stage == 0 then
      var sessionTs := SessionStart(rng(k), rng(k + 1), days);
      var sessionId := SessionId(userId, startEpoch + 60 * sessionTs, RandInt(rng(k + 2), 100, 999));
      FunnelFrom(userId, variant, days, startEpoch, rng, 1, sessionId, sessionTs, k + 3)
    else if stage == 3 then
      var orderId := OrderId(userId, startEpoch + 60 * ts, RandInt(rng(k), 100, 999));
      var revenue := if rng(k + 1) < MIN_REVENUE_CENTS then MIN_REVENUE_CENTS else rng(k + 1);
      ([Event(userId, sessionId, ts, Purchase, Some(orderId), Some(revenue))], k + 2)
    else
      var e := Event(userId, sessionId, ts, FunnelStage(stage - 1), None, None);
      var perMille := if stage == 1 then CART_PER_MILLE else BASE_CONV[variant];
      var maxDelay := if stage == 1 then MAX_CART_DELAY else MAX_PURCHASE_DELAY;
      if !Below(rng(k), perMille) then ([e], k + 1)
      else
        var rest := FunnelFrom(userId, variant, days, startEpoch, rng, stage + 1, sessionId,
          ts + RandInt(rng(k + 1), 1, maxDelay), k + 2);
        ([e] + rest.0, rest.1)
  }

  /** The events of one session and the index of the next unused draw, as the
      session loop's body produces them from the draws at `k`. */
  function SessionDraw(userId: string, variant: string, days: nat, startEpoch: nat, rng: Rng, k: nat): (r: (seq<Event>, nat))
    requires days >= 1 && variant in BASE_CONV
  {
    FunnelFrom(userId, variant, days, startEpoch, rng, 0, "", 0, k)
  }

  /** One more session: the block drawn where the first `count` sessions
      left off extends their events. */
  lemma UserSessionsNext(userId: string, variant: string, days: nat, startEpoch: nat, rng: Rng, k: nat, count: nat,
    drawn: seq<Event>, at: nat, block: seq<Event>, after: nat)
    requires days >= 1 && variant in BASE_CONV
    requires (drawn, at) == UserSessions(userId, variant, days, startEpoch, rng, k, count)
    requires (block, after) == SessionDraw(userId, variant, days, startEpoch, rng, at)
    ensures (drawn + block, after) == UserSessions(userId, variant, days, startEpoch, rng, k, count + 1)
  {
  }

  /** `max(1, int(random.gauss(3.5, 1.5)))`, with the Gaussian draw given as an integer. */
  function SessionCount(x: int): (n: nat)
    ensures n >= 1 && (x >= 1 ==> n == x)
  {
    if x < 1 then 1 else x
  }

  /** The events of `count` sessions of one user, drawn from `k` on, and the
      index of the next unused draw. */
  function UserSessions(userId: string, variant: string, days: nat, startEpoch: nat, rng: Rng, k: nat, count: nat): (r: (seq<Event>, nat))
    requires days >= 1 && variant in BASE_CONV
    decreases count
  {
    if count == 0 then ([], k)
    else
      var prev := UserSessions(userId, variant, days, startEpoch, rng, k, count - 1);
      var next := SessionDraw(userId, variant, days, startEpoch, rng, prev.1);
      (prev.0 + next.0, next.1)
  }

  /** The segments one after the other, as the loops append them. */
  function Flatten(segments: seq<seq<Event>>): (ev: seq<Event>)
    ensures forall t :: 0 <= t < |segments| ==> |ev| >= |segments[t]|
  {
    if segments == [] then []
    else
      var init := segments[..|segments| - 1];
      assert forall t :: 0 <= t < |init| ==> init[t] == segments[t];
      Flatten(init) + segments[|segments| - 1]
  }

  /** One more segment appends its events. */
  lemma FlattenSnoc(segments: seq<seq<Event>>, seg: seq<Event>)
    ensures Flatten(segments + [seg]) == Flatten(segments) + seg
  {
    assert (segments + [seg])[..|segments|] == segments;
  }

  /** A drawn session is one session block of its user, and every event of it
      spells the user in its session id. */
  lemma SessionDrawShape(userId: string, variant: string, days: nat, startEpoch: nat, rng: Rng, k: nat)
    requires days >= 1 && variant in BASE_CONV
    ensures var b := SessionDraw(userId, variant, days, startEpoch, rng, k).0;
      SessionBlock(b, userId, days) && forall i :: 0 <= i < |b| ==> NamesUser(b[i])
  {
    hide OrderId, RandInt, Below;
    var b := SessionDraw(userId, variant, days, startEpoch, rng, k).0;
    assert NamesUser(b[0]);
  }

  /** The cart coin decides whether a session goes beyond its page view, and
      the variant's purchase coin whether a cart ends in a purchase. */
  lemma SessionDrawCoins(userId: string, variant: string, days: nat, startEpoch: nat, rng: Rng, k: nat)
    requires days >= 1 && variant in BASE_CONV
    ensures var (b, next) := SessionDraw(userId, variant, days, startEpoch, rng, k);
      && (|b| >= 2 <==> Below(rng(k + 3), CART_PER_MILLE))
      && (|b| == 3 <==> Below(rng(k + 3), CART_PER_MILLE) && Below(rng(k + 5), BASE_CONV[variant]))
      && next == k + (if |b| == 1 then 4 else if |b| == 2 then 6 else 9)
  {
  }

  /** Which draw feeds which column: the start from the day and hour draws,
      the session id from the start and the session tag, the two delays, and
      the order id and revenue of a purchase. */
  lemma SessionDrawColumns(userId: string, variant: string, days: nat, startEpoch: nat, rng: Rng, k: nat)
    requires days >= 1 && variant in BASE_CONV
    ensures var b := SessionDraw(userId, variant, days, startEpoch, rng, k).0;
      && b[0].eventTs == SessionStart(rng(k), rng(k + 1), days)
      && (forall i :: 0 <= i < |b| ==>
            b[i].sessionId == SessionId(userId, startEpoch + 60 * b[0].eventTs, RandInt(rng(k + 2), 100, 999)))
      && (|b| >= 2 ==> b[1].eventTs == b[0].eventTs + RandInt(rng(k + 4), 1, MAX_CART_DELAY))
      && (|b| == 3 ==> b[2].eventTs == b[1].eventTs + RandInt(rng(k + 6), 1, MAX_PURCHASE_DELAY))
      && (|b| == 3 ==>
            b[2].orderId == Some(OrderId(userId, startEpoch + 60 * b[2].eventTs, RandInt(rng(k + 7), 100, 999))))
      && (|b| == 3 ==>
            b[2].revenue == Some(if rng(k + 8) < MIN_REVENUE_CENTS then MIN_REVENUE_CENTS else rng(k + 8)))
  {
    hide SessionId, OrderId, SessionStart, RandInt, Below;
  }

  /** A session of the user appended to a log of the user's events keeps it one. */
  lemma UserLogStep(d: seq<Event>, b: seq<Event>, userId: string, days: nat)
    requires UserLog(d, userId, days) && SessionBlock(b, userId, days)
    requires forall i :: 0 <= i < |b| ==> NamesUser(b[i])
    ensures UserLog(d + b, userId, days)
  {
    SessionOrders(b, userId, days);
    LogAppend(d, b, days);
    OrdersOfAppend(d, b);
    var db := d + b;
    forall i | 0 <= i < |db| ensures db[i].userId == userId && NamesUser(db[i]) {
      if i < |d| {
        assert db[i] == d[i];
      } else {
        assert db[i] == b[i - |d|];
        SessionUser(b, userId, days, i - |d|);
      }
    }
  }

  /** A drawn session appended to a log of its user's events keeps it one. */
  lemma DrawnLogStep(d: seq<Event>, userId: string, variant: string, days: nat, startEpoch: nat, rng: Rng, k: nat)
    requires days >= 1 && variant in BASE_CONV && UserLog(d, userId, days)
    ensures UserLog(d + SessionDraw(userId, variant, days, startEpoch, rng, k).0, userId, days)
  {
    SessionDrawShape(userId, variant, days, startEpoch, rng, k);
    UserLogStep(d, SessionDraw(userId, variant, days, startEpoch, rng, k).0, userId, days);
  }

  /** The sessions drawn for one user form a log of that user's events with
      every purchase priced, with at least one event and four draws per session. */
  lemma {:induction false} UserSessionsLog(userId: string, variant: string, days: nat, startEpoch: nat, rng: Rng, k: nat, count: nat)
    requires days >= 1 && variant in BASE_CONV
    ensures var (d, next) := UserSessions(userId, variant, days, startEpoch, rng, k, count);
      UserLog(d, userId, days) && |d| >= count && next >= k + 4 * count
  {
    hide SessionDraw, FunnelFrom;
    if count > 0 {
      UserSessionsLog(userId, variant, days, startEpoch, rng, k, count - 1);
      var prev := UserSessions(userId, variant, days, startEpoch, rng, k, count - 1);
      DrawnLogStep(prev.0, userId, variant, days, startEpoch, rng, prev.1);
      SessionDrawShape(userId, variant, days, startEpoch, rng, prev.1);
      SessionDrawCoins(userId, variant, days, startEpoch, rng, prev.1);
      UserSessionsUnfold(userId, variant, days, startEpoch, rng, k, count);
    }
  }

  /** The first `count` sessions are the first `count - 1` followed by the
      session drawn where those left off. */
  lemma UserSessionsUnfold(userId: string, variant: string, days: nat, startEpoch: nat, rng: Rng, k: nat, count: nat)
    requires days >= 1 && variant in BASE_CONV && count > 0
    ensures var prev := UserSessions(userId, variant, days, startEpoch, rng, k, count - 1);
      var next := SessionDraw(userId, variant, days, startEpoch, rng, prev.1);
      UserSessions(userId, variant, days, startEpoch, rng, k, count) == (prev.0 + next.0, next.1)
  {
  }

  /** One iteration of the session loop: draws day, hour and session tag, then
      the cart coin; after a cart, its delay and the purchase coin; after a
      purchase, its delay, the order tag and the revenue. */
  method MakeSession(userId: string, variant: string, days: nat, startEpoch: nat, rng: Rng, k: nat)
    returns (block: seq<Event>, placed: seq<Order>, next: nat)
    requires days >= 1 && variant in BASE_CONV
    ensures (block, next) == SessionDraw(userId, variant, days, startEpoch, rng, k)
    ensures SessionBlock(block, userId, days) && forall i :: 0 <= i < |block| ==> NamesUser(block[i])
    ensures AllPurchasesPriced(block) && placed == OrdersOf(block)
  {
    hide SessionId, OrderId, SessionStart, RandInt, Below, SessionBlock, NamesUser, AllPurchasesPriced, OrdersOf, Purchases;
    var sessionTs := SessionStart(rng(k), rng(k + 1), days);
    var sessionId := SessionId(userId, startEpoch + 60 * sessionTs, RandInt(rng(k + 2), 100, 999));
    var view := Event(userId, sessionId, sessionTs, PageView, None, None);
    block, placed, next := [view], [], k + 4;
    if Below(rng(k + 3), CART_PER_MILLE) {
      var cartTs := sessionTs + RandInt(rng(k + 4), 1, MAX_CART_DELAY);
      var cart := Event(userId, sessionId, cartTs, AddToCart, None, None);
      block, next := [view, cart], k + 6;
      if Below(rng(k + 5), BASE_CONV[variant]) {
        var purchaseTs := cartTs + RandInt(rng(k + 6), 1, MAX_PURCHASE_DELAY);
        var orderId := OrderId(userId, startEpoch + 60 * purchaseTs, RandInt(rng(k + 7), 100, 999));
        var revenue := if rng(k + 8) < MIN_REVENUE_CENTS then MIN_REVENUE_CENTS else rng(k + 8);
        var purchase := Event(userId, sessionId, purchaseTs, Purchase, Some(orderId), Some(revenue));
        block, placed, next := [view, cart, purchase], [Order(orderId, userId, purchaseTs, revenue)], k + 9;
      }
    }
    ghost var drawn := SessionDraw(userId, variant, days, startEpoch, rng, k);
    assert block == drawn.0;
    SessionDrawShape(userId, variant, days, startEpoch, rng, k);
    SessionOrders(drawn.0, userId, days);
  }

  /** User `u` of the roster, whose sessions are drawn after the draw of their
      number at `from`, appends `segment` and leaves the next unused draw at `to`. */
  predicate DrawnUser(hash: string -> int, days: nat, startEpoch: nat, rng: Rng, u: nat, from: nat, segment: seq<Event>, to: nat)
    requires days >= 1
  {
    var drawn := UserSessions(UserId(u), VariantOf(hash, UserId(u)), days, startEpoch, rng,
      from + 1, SessionCount(rng(from)));
    segment == drawn.0 && to == drawn.1
  }

  /** The sessions drawn for the user with the id and variant of roster
      user `u`, after the draw of their number at `from`, are that user's. */
  lemma DrawnUserIntro(hash: string -> int, days: nat, startEpoch: nat, rng: Rng, u: nat, from: nat,
    userId: string, variant: string, segment: seq<Event>, to: nat)
    requires days >= 1 && userId == UserId(u) && variant == VariantOf(hash, userId) && variant in BASE_CONV
    requires segment == UserSessions(userId, variant, days, startEpoch, rng, from + 1, SessionCount(rng(from))).0
    requires to == UserSessions(userId, variant, days, startEpoch, rng, from + 1, SessionCount(rng(from))).1
    ensures DrawnUser(hash, days, startEpoch, rng, u, from, segment, to)
  {
  }

  /** Users 0 .. |segments| - 1 in roster order: user `u` draws from
      `starts[u]` on, appends `segments[u]`, and the next user draws from
      `starts[u + 1]`. */
  predicate AllDrawn(hash: string -> int, days: nat, startEpoch: nat, rng: Rng, starts: seq<nat>, segments: seq<seq<Event>>)
    requires days >= 1
  {
    |starts| == |segments| + 1 &&
    forall u {:trigger segments[u]} :: 0 <= u < |segments| ==>
      DrawnUser(hash, days, startEpoch, rng, u, starts[u], segments[u], starts[u + 1])
  }

  /** One more user drawn after the last keeps the roster-order account. */
  lemma AllDrawnExtend(hash: string -> int, days: nat, startEpoch: nat, rng: Rng,
    starts: seq<nat>, segments: seq<seq<Event>>, segment: seq<Event>, next: nat)
    requires days >= 1 && AllDrawn(hash, days, startEpoch, rng, starts, segments)
    requires DrawnUser(hash, days, startEpoch, rng, |segments|, starts[|segments|], segment, next)
    ensures AllDrawn(hash, days, startEpoch, rng, starts + [next], segments + [segment])
  {
    hide SessionDraw, FunnelFrom, UserSessions, UserId, VariantOf, SessionCount;
    var s2, g2 := starts + [next], segments + [segment];
    forall u {:trigger g2[u]} | 0 <= u < |g2|
      ensures DrawnUser(hash, days, startEpoch, rng, u, s2[u], g2[u], s2[u + 1])
    {
      if u < |segments| {
        assert g2[u] == segments[u] && s2[u] == starts[u] && s2[u + 1] == starts[u + 1];
      }
    }
  }

  /** Before the first user nothing is drawn. */
  lemma RosterStart(hash: string -> int, days: nat, startEpoch: nat, rng: Rng, k: nat)
    requires days >= 1
    ensures AllDrawn(hash, days, startEpoch, rng, [k], []) && Flatten([]) == []
    ensures AllPurchasesPriced([]) && OrdersOf([]) == []
  {
  }

  /** The next roster user, drawing from where the users before left off,
      extends the roster-order account and the log by their segment. */
  lemma RosterStep(hash: string -> int, days: nat, startEpoch: nat, rng: Rng, starts: seq<nat>,
    segments: seq<seq<Event>>, userId: string, variant: string, from: nat, segment: seq<Event>, to: nat)
    requires days >= 1 && AllDrawn(hash, days, startEpoch, rng, starts, segments) && from == starts[|segments|]
    requires userId == UserId(|segments|) && variant == VariantOf(hash, userId) && variant in BASE_CONV
    requires segment == UserSessions(userId, variant, days, startEpoch, rng, from + 1, SessionCount(rng(from))).0
    requires to == UserSessions(userId, variant, days, startEpoch, rng, from + 1, SessionCount(rng(from))).1
    ensures AllDrawn(hash, days, startEpoch, rng, starts + [to], segments + [segment])
    ensures Flatten(segments + [segment]) == Flatten(segments) + segment
  {
    var u := |segments|;
    DrawnUserIntro(hash, days, startEpoch, rng, u, from, userId, variant, segment, to);
    AllDrawnExtend(hash, days, startEpoch, rng, starts, segments, segment, to);
    FlattenSnoc(segments, segment);
  }

  /** The segment a roster user draws is a segment of that user's events. */
  lemma DrawnUserSegment(hash: string -> int, days: nat, startEpoch: nat, rng: Rng, u: nat, from: nat, segment: seq<Event>, to: nat)
    requires days >= 1 && DrawnUser(hash, days, startEpoch, rng, u, from, segment, to)
    ensures UserSegment(segment, UserId(u), days)
  {
    var userId := UserId(u);
    UserSessionsLog(userId, VariantOf(hash, userId), days, startEpoch, rng, from + 1, SessionCount(rng(from)));
  }

  /** Every segment the roster draws is a segment of its user's events. */
  lemma AllDrawnSegments(hash: string -> int, days: nat, startEpoch: nat, rng: Rng, starts: seq<nat>, segments: seq<seq<Event>>)
    requires days >= 1 && AllDrawn(hash, days, startEpoch, rng, starts, segments)
    ensures forall u :: 0 <= u < |segments| ==> UserSegment(segments[u], UserId(u), days)
  {
    forall u | 0 <= u < |segments| ensures UserSegment(segments[u], UserId(u), days) {
      DrawnUserSegment(hash, days, startEpoch, rng, u, starts[u], segments[u], starts[u + 1]);
    }
  }

  /** Every roster user's id is in the roster. */
  lemma InRoster(users: seq<User>, i: nat)
    requires i < |users|
    ensures users[i].userId in RosterIds(users)
  {
  }

  /** No segments make the empty log. */
  lemma NoSegments(users: seq<User>, days: nat)
    ensures Flatten([]) == [] && EventLog([], days) && AllPurchasesPriced([]) && Attributed([], RosterIds(users))
  {
  }

  /** The segments of the first `n` roster users, one after the other, make a
      log with every purchase priced, attributed to the roster, with a page
      view of each of those users. */
  lemma {:induction false} SegmentsLog(users: seq<User>, segments: seq<seq<Event>>, days: nat, n: nat)
    requires n <= |segments| <= |users|
    requires forall u :: 0 <= u < |users| ==> users[u].userId == UserId(u)
    requires forall u :: 0 <= u < |segments| ==> UserSegment(segments[u], UserId(u), days)
    ensures var ev := Flatten(segments[..n]);
      && EventLog(ev, days) && AllPurchasesPriced(ev) && Attributed(ev, RosterIds(users))
      && forall i :: 0 <= i < n ==> HasPageView(ev, users[i].userId)
  {
    hide *;
    if n > 0 {
      SegmentsLog(users, segments, days, n - 1);
      var seg := segments[n - 1];
      assert segments[..n] == segments[..n - 1] + [seg];
      FlattenSnoc(segments[..n - 1], seg);
      var ev := Flatten(segments[..n - 1]);
      InRoster(users, n - 1);
      ExtendLog(ev, seg, UserId(n - 1), days, RosterIds(users));
      forall i | 0 <= i < n ensures HasPageView(ev + seg, users[i].userId) {
        if i < n - 1 {
          assert HasPageView(ev, users[i].userId);
        } else {
          assert users[i].userId == UserId(n - 1);
        }
      }
    } else {
      assert segments[..0] == [];
      NoSegments(users, days);
    }
  }

  /** Appending a session's orders to the orders of the sessions before it
      gives the orders of all of them. */
  lemma AppendOrders(orders: seq<Order>, drawn: seq<Event>, block: seq<Event>)
    requires AllPurchasesPriced(drawn) && AllPurchasesPriced(block)
    ensures AllPurchasesPriced(drawn + block)
    ensures orders + OrdersOf(drawn) + OrdersOf(block) == orders + OrdersOf(drawn + block)
  {
    OrdersOfAppend(drawn, block);
  }

  /** No sessions draw nothing and place no orders. */
  lemma NoSessions(userId: string, variant: string, days: nat, startEpoch: nat, rng: Rng, k: nat)
    requires days >= 1 && variant in BASE_CONV
    ensures UserSessions(userId, variant, days, startEpoch, rng, k, 0) == ([], k)
    ensures AllPurchasesPriced([]) && OrdersOf([]) == []
  {
  }

  /** The session loop of one user: `count` sessions drawn from `k` on,
      appended to the log and their orders to the orders. */
  method MakeUserSessions(events: seq<Event>, orders: seq<Order>, userId: string, variant: string,
    days: nat, startEpoch: nat, rng: Rng, k: nat, count: nat)
    returns (log: seq<Event>, logOrders: seq<Order>, next: nat)
    requires days >= 1 && variant in BASE_CONV
    ensures log == events + UserSessions(userId, variant, days, startEpoch, rng, k, count).0
    ensures next == UserSessions(userId, variant, days, startEpoch, rng, k, count).1
    ensures AllPurchasesPriced(UserSessions(userId, variant, days, startEpoch, rng, k, count).0)
    ensures logOrders == orders + OrdersOf(UserSessions(userId, variant, days, startEpoch, rng, k, count).0)
  {
    hide *;
    NoSessions(userId, variant, days, startEpoch, rng, k);
    log, logOrders, next := events, orders, k;
    ghost var drawn: seq<Event> := [];
    var s := 0;
    while s < count
      invariant 0 <= s <= count
      invariant (drawn, next) == UserSessions(userId, variant, days, startEpoch, rng, k, s)
      invariant log == events + drawn
      invariant AllPurchasesPriced(drawn) && logOrders == orders + OrdersOf(drawn)
    {
      var block, placed, after := MakeSession(userId, variant, days, startEpoch, rng, next);
      UserSessionsNext(userId, variant, days, startEpoch, rng, k, s, drawn, next, block, after);
      AppendOrders(orders, drawn, block);
      assert log + block == events + (drawn + block);
      log, logOrders, next := log + block, logOrders + placed, after;
      drawn := drawn + block;
      s := s + 1;
    }
  }

  /** `main` minus the writing of the CSV files: the roster, the assignment,
      then for every user at least one session. */
  method MakeData(nUsers: nat, days: nat, startEpoch: nat, hash: string -> int, rng: Rng)
    returns (users: seq<User>, assignments: seq<Assignment>, events: seq<Event>, orders: seq<Order>,
      ghost starts: seq<nat>, ghost segments: seq<seq<Event>>)
    requires days >= 1
    ensures users == MakeUsers(nUsers, days, rng)
    ensures assignments == MakeAssignments(users, hash)
    ensures EventLog(events, days)
    ensures AllPurchasesPriced(events) && orders == OrdersOf(events)
    ensures Attributed(events, RosterIds(users))
    ensures forall i :: 0 <= i < |users| ==> HasPageView(events, users[i].userId)
    ensures AllDrawn(hash, days, startEpoch, rng, starts, segments)
    ensures |segments| == nUsers && starts[0] == 3 * nUsers
    ensures events == Flatten(segments)
  {
    hide *;
    users := MakeUsers(nUsers, days, rng);
    assignments := MakeAssignments(users, hash);
    events, orders := [], [];
    var k: nat := 3 * nUsers;
    starts, segments := [k], [];
    RosterStart(hash, days, startEpoch, rng, k);
    var u := 0;
    while u < nUsers
      invariant 0 <= u <= nUsers && |segments| == u && |starts| == u + 1
      invariant AllDrawn(hash, days, startEpoch, rng, starts, segments)
      invariant starts[0] == 3 * nUsers && k == starts[u]
      invariant events == Flatten(segments)
      invariant AllPurchasesPriced(events) && orders == OrdersOf(events)
    {
      var userId := users[u].userId;
      var found := FirstVariant(assignments, userId);
      LookupIsSticky(users, hash, u);
      var variant := found.value;
      assert userId == UserId(u) && variant == VariantOf(hash, userId);
      var nSessions := SessionCount(rng(k));
      ghost var segment := UserSessions(userId, variant, days, startEpoch, rng, k + 1, nSessions).0;
      ghost var from, before := k, events;
      events, orders, k := MakeUserSessions(events, orders, userId, variant, days, startEpoch, rng,
        k + 1, nSessions);
      OrdersOfAppend(before, segment);
      RosterStep(hash, days, startEpoch, rng, starts, segments, userId, variant, from, segment, k);
      starts, segments := starts + [k], segments + [segment];
      u := u + 1;
    }
    AllDrawnSegments(hash, days, startEpoch, rng, starts, segments);
    SegmentsLog(users, segments, days, nUsers);
    assert segments[..nUsers] == segments;
  }
}
