/** The marts (src/marts/build_marts.py): six `CREATE OR REPLACE TABLE ... AS
    SELECT` statements, each a function of the tables it reads. */
module Marts {
  import opened Records
  import opened Ordering

  // ---------------------------------------------------------------- typed copies

  /** fct_events: every column of raw_events, timestamps and revenue cast; the
      casts are identities on the model's integer minutes and cents. */
  function FctEvents(raw: seq<Event>): (r: seq<Event>)
    ensures |r| == |raw|
    ensures forall i :: 0 <= i < |r| ==> r[i] == raw[i]
  {
    seq(|raw|, i requires 0 <= i < |raw| =>
      Event(raw[i].userId, raw[i].sessionId, raw[i].eventTs, raw[i].eventType, raw[i].orderId, raw[i].revenue))
  }

  /** dim_user: raw_users with signup_dt cast. */
  function DimUser(raw: seq<User>): (r: seq<User>)
    ensures |r| == |raw|
    ensures forall i :: 0 <= i < |r| ==> r[i] == raw[i]
  {
    seq(|raw|, i requires 0 <= i < |raw| => User(raw[i].userId, raw[i].signupDt, raw[i].country, raw[i].device))
  }

  /** fct_orders: raw_orders with order_ts and revenue cast. */
  function FctOrders(raw: seq<Order>): (r: seq<Order>)
    ensures |r| == |raw|
    ensures forall i :: 0 <= i < |r| ==> r[i] == raw[i]
  {
    seq(|raw|, i requires 0 <= i < |raw| => Order(raw[i].orderId, raw[i].userId, raw[i].orderTs, raw[i].revenue))
  }

  // ---------------------------------------------------------------- fct_sessions

  datatype SessionRow = SessionRow(
    sessionId: string,
    userId: string,
    sessionStartTs: int,
    sessionEndTs: int,
    pageViews: nat,
    addToCartEvents: nat,
    purchases: nat,
    converted: nat)

  /** The GROUP BY key (session_id, user_id) of an event. */
  function KeyOf(e: Event): (string, string) {
    (e.sessionId, e.userId)
  }

  function RowKey(r: SessionRow): (string, string) {
    (r.sessionId, r.userId)
  }

  /** The distinct elements of `xs` in order of first appearance. */
  function FirstAppearance<T(==,!new)>(xs: seq<T>): (r: seq<T>)
    ensures forall y :: y in r <==> y in xs
    ensures forall i, j :: 0 <= i < j < |r| ==> r[i] != r[j]
  {
    if xs == [] then []
    else
      var init, last := xs[..|xs| - 1], xs[|xs| - 1];
      assert xs == init + [last];
      var r := FirstAppearance(init);
      if last in r then r else r + [last]
  }

  /** The groups of `GROUP BY session_id, user_id`; the statement has no ORDER BY,
      so the order of rows is the engine's: the model takes first appearance. */
  function SessionKeys(ev: seq<Event>): (keys: seq<(string, string)>)
    ensures forall k :: k in keys <==> exists i :: 0 <= i < |ev| && KeyOf(ev[i]) == k
    ensures forall i, j :: 0 <= i < j < |keys| ==> keys[i] != keys[j]
  {
    var ks := seq(|ev|, i requires 0 <= i < |ev| => KeyOf(ev[i]));
    assert forall i :: 0 <= i < |ev| ==> ks[i] == KeyOf(ev[i]);
    FirstAppearance(ks)
  }

  /** The events of one group, in table order. */
  function Group(ev: seq<Event>, key: (string, string)): (g: seq<Event>)
    ensures |g| <= |ev|
    ensures forall e :: e in g <==> e in ev && KeyOf(e) == key
  {
    if ev == [] then []
    else
      var init, last := ev[..|ev| - 1], ev[|ev| - 1];
      assert ev == init + [last];
      if KeyOf(last) == key then Group(init, key) + [last] else Group(init, key)
  }

  /** `GROUP BY` keeps duplicate rows: the group holds each event of its key
      as often as the table does, and no other event. */
  lemma {:induction false} GroupCount(ev: seq<Event>, key: (string, string), e: Event)
    ensures multiset(Group(ev, key))[e] == if KeyOf(e) == key then multiset(ev)[e] else 0
    decreases |ev|
  {
    if ev != [] {
      var init, last := ev[..|ev| - 1], ev[|ev| - 1];
      assert ev == init + [last];
      GroupCount(init, key, e);
    }
  }

  /** MIN(event_ts). */
  function MinTs(g: seq<Event>): (m: int)
    requires |g| > 0
    ensures exists i :: 0 <= i < |g| && g[i].eventTs == m
    ensures forall i :: 0 <= i < |g| ==> m <= g[i].eventTs
  {
    if |g| == 1 then g[0].eventTs
    else
      var m := MinTs(g[1..]);
      assert forall i :: 1 <= i < |g| ==> g[i] == g[1..][i - 1];
      if g[0].eventTs <= m then g[0].eventTs else m
  }

  /** MAX(event_ts). */
  function MaxTs(g: seq<Event>): (m: int)
    requires |g| > 0
    ensures exists i :: 0 <= i < |g| && g[i].eventTs == m
    ensures forall i :: 0 <= i < |g| ==> g[i].eventTs <= m
  {
    if |g| == 1 then g[0].eventTs
    else
      var m := MaxTs(g[1..]);
      assert forall i :: 1 <= i < |g| ==> g[i] == g[1..][i - 1];
      if g[0].eventTs >= m then g[0].eventTs else m
  }

  /** MAX(CASE WHEN event_type = t THEN 1 ELSE 0 END) over a non-empty group. */
  function MaxIndicator(g: seq<Event>, t: EventType): (m: nat)
    requires |g| > 0
    ensures m <= 1
    ensures m == 1 <==> exists i :: 0 <= i < |g| && g[i].eventType == t
  {
    var here := if g[0].eventType == t then 1 else 0;
    if |g| == 1 then here
    else
      var m := MaxIndicator(g[1..], t);
      assert forall i :: 1 <= i < |g| ==> g[i] == g[1..][i - 1];
      if here >= m then here else m
  }

  /** The three type counts of a group add up to its size. */
  lemma {:induction false} TypeCountsPartition(g: seq<Event>)
    ensures CountType(g, PageView) + CountType(g, AddToCart) + CountType(g, Purchase) == |g|
  {
    if g != [] {
      TypeCountsPartition(g[..|g| - 1]);
    }
  }

  /** One row of fct_sessions from the non-empty group of `key`. */
  function SessionRowOf(key: (string, string), g: seq<Event>): (r: SessionRow)
    requires |g| > 0
    ensures RowKey(r) == key
    ensures r.sessionStartTs <= r.sessionEndTs
    ensures exists i :: 0 <= i < |g| && g[i].eventTs == r.sessionStartTs
    ensures exists i :: 0 <= i < |g| && g[i].eventTs == r.sessionEndTs
    ensures forall i :: 0 <= i < |g| ==> r.sessionStartTs <= g[i].eventTs <= r.sessionEndTs
    ensures r.pageViews == CountType(g, PageView)
    ensures r.addToCartEvents == CountType(g, AddToCart)
    ensures r.purchases == CountType(g, Purchase)
    ensures r.pageViews + r.addToCartEvents + r.purchases == |g|
    ensures r.converted <= 1 && (r.converted == 1 <==> r.purchases >= 1)
    ensures r.converted == 1 <==> exists i :: 0 <= i < |g| && g[i].eventType == Purchase
  {
    TypeCountsPartition(g);
    SessionRow(key.0, key.1, MinTs(g), MaxTs(g),
      CountType(g, PageView), CountType(g, AddToCart), CountType(g, Purchase),
      MaxIndicator(g, Purchase))
  }

  lemma KeyHasGroup(ev: seq<Event>, key: (string, string))
    requires key in SessionKeys(ev)
    ensures |Group(ev, key)| > 0
  {
    var i :| 0 <= i < |ev| && KeyOf(ev[i]) == key;
    assert ev[i] in Group(ev, key);
  }

  /** The row of one group that occurs in `ev`. */
  function RowFor(ev: seq<Event>, key: (string, string)): (r: SessionRow)
    requires key in SessionKeys(ev)
    ensures RowKey(r) == key
  {
    KeyHasGroup(ev, key);
    SessionRowOf(key, Group(ev, key))
  }

  /** fct_sessions: one row per (session_id, user_id) group of fct_events. */
  function FctSessions(ev: seq<Event>): (rows: seq<SessionRow>)
    ensures |rows| == |SessionKeys(ev)|
    ensures forall i :: 0 <= i < |rows| ==> RowKey(rows[i]) == SessionKeys(ev)[i]
    ensures forall i, j :: 0 <= i < j < |rows| ==> RowKey(rows[i]) != RowKey(rows[j])
  {
    var keys := SessionKeys(ev);
    seq(|keys|, i requires 0 <= i < |keys| => RowFor(ev, keys[i]))
  }

  /** Every row of fct_sessions is the key of some event. */
  lemma SessionRowsFromEvents(ev: seq<Event>, i: nat)
    requires i < |FctSessions(ev)|
    ensures exists j :: 0 <= j < |ev| && KeyOf(ev[j]) == RowKey(FctSessions(ev)[i])
  {
    var keys := SessionKeys(ev);
    assert keys[i] in keys;
  }

  /** Every event's key has a row in fct_sessions. */
  lemma EventHasSessionRow(ev: seq<Event>, j: nat)
    requires j < |ev|
    ensures exists i :: 0 <= i < |FctSessions(ev)| && RowKey(FctSessions(ev)[i]) == KeyOf(ev[j])
  {
    var keys := SessionKeys(ev);
    assert KeyOf(ev[j]) in keys;
    var i :| 0 <= i < |keys| && keys[i] == KeyOf(ev[j]);
    assert RowKey(FctSessions(ev)[i]) == KeyOf(ev[j]);
  }

  /** Each row's start and end are times of events of its group, and bound
      every event of the group; its three counts are those of the group's
      events of each type, and it is converted exactly when one of its
      events is a purchase. */
  lemma SessionRowFacts(ev: seq<Event>, i: nat)
    requires i < |FctSessions(ev)|
    ensures var r := FctSessions(ev)[i];
      && r.sessionStartTs <= r.sessionEndTs
      && (exists j :: 0 <= j < |ev| && KeyOf(ev[j]) == RowKey(r) && ev[j].eventTs == r.sessionStartTs)
      && (exists j :: 0 <= j < |ev| && KeyOf(ev[j]) == RowKey(r) && ev[j].eventTs == r.sessionEndTs)
      && (forall j :: 0 <= j < |ev| && KeyOf(ev[j]) == RowKey(r) ==>
            r.sessionStartTs <= ev[j].eventTs <= r.sessionEndTs)
      && r.pageViews == CountType(Group(ev, RowKey(r)), PageView)
      && r.addToCartEvents == CountType(Group(ev, RowKey(r)), AddToCart)
      && r.purchases == CountType(Group(ev, RowKey(r)), Purchase)
      && r.pageViews + r.addToCartEvents + r.purchases == |Group(ev, RowKey(r))|
      && r.converted <= 1 && (r.converted == 1 <==> r.purchases >= 1)
      && (r.converted == 1 <==>
            exists j :: 0 <= j < |ev| && KeyOf(ev[j]) == RowKey(r) && ev[j].eventType == Purchase)
  {
    hide SessionRowOf, Group, SessionKeys, FirstAppearance, MinTs, MaxTs, MaxIndicator, CountType;
    var r := FctSessions(ev)[i];
    var g := Group(ev, RowKey(r));
    KeyHasGroup(ev, RowKey(r));
    assert r == SessionRowOf(RowKey(r), g);
    var a :| 0 <= a < |g| && g[a].eventTs == r.sessionStartTs;
    assert g[a] in g;
    var b :| 0 <= b < |g| && g[b].eventTs == r.sessionEndTs;
    assert g[b] in g;
    forall j | 0 <= j < |ev| && KeyOf(ev[j]) == RowKey(r)
      ensures r.sessionStartTs <= ev[j].eventTs <= r.sessionEndTs
    {
      assert ev[j] in g;
    }
    if r.converted == 1 {
      var c :| 0 <= c < |g| && g[c].eventType == Purchase;
      assert g[c] in g;
    }
    forall j | 0 <= j < |ev| && KeyOf(ev[j]) == RowKey(r) && ev[j].eventType == Purchase
      ensures r.converted == 1
    {
      assert ev[j] in g;
      var c :| 0 <= c < |g| && g[c] == ev[j];
    }
  }

  // ---------------------------------------------------------------- fct_funnel_daily

  datatype FunnelRow = FunnelRow(
    eventDate: int,
    sessionsWithPageView: nat,
    sessionsWithAddToCart: nat,
    sessionsWithPurchase: nat)

  /** CAST(event_ts AS DATE): the day of a timestamp, counted from the start day. */
  function EventDate(ts: int): (d: int)
    ensures d * MINUTES_PER_DAY <= ts < (d + 1) * MINUTES_PER_DAY
  {
    ts / MINUTES_PER_DAY
  }

  /** The session ids counted by COUNT(DISTINCT CASE WHEN event_type = t THEN
      session_id END) in the group of day `d`. */
  function SessionsReaching(ev: seq<Event>, d: int, t: EventType): (s: set<string>)
    ensures forall x :: x in s <==>
      exists i :: 0 <= i < |ev| && ev[i].sessionId == x && EventDate(ev[i].eventTs) == d && ev[i].eventType == t
  {
    if ev == [] then {}
    else
      var init, last := ev[..|ev| - 1], ev[|ev| - 1];
      assert forall i :: 0 <= i < |init| ==> init[i] == ev[i];
      var s := SessionsReaching(init, d, t);
      if EventDate(last.eventTs) == d && last.eventType == t then s + {last.sessionId} else s
  }

  /** The events of day `d`. */
  function OnDate(ev: seq<Event>, d: int): (r: seq<Event>)
    ensures forall e :: e in r <==> e in ev && EventDate(e.eventTs) == d
  {
    if ev == [] then []
    else
      var init, last := ev[..|ev| - 1], ev[|ev| - 1];
      assert ev == init + [last];
      if EventDate(last.eventTs) == d then OnDate(init, d) + [last] else OnDate(init, d)
  }

  /** A distinct count never exceeds the number of events it counts. */
  lemma {:induction false} DistinctAtMostEvents(ev: seq<Event>, d: int, t: EventType)
    ensures |SessionsReaching(ev, d, t)| <= CountType(OnDate(ev, d), t)
  {
    if ev != [] {
      var init, last := ev[..|ev| - 1], ev[|ev| - 1];
      DistinctAtMostEvents(init, d, t);
      var s := SessionsReaching(init, d, t);
      if EventDate(last.eventTs) == d {
        var o := OnDate(init, d) + [last];
        assert o[..|o| - 1] == OnDate(init, d);
        if last.eventType == t {
          assert |s + {last.sessionId}| <= |s| + 1;
        }
      }
    }
  }

  /** The distinct days of the events, ascending: GROUP BY 1 ORDER BY 1. */
  function Dates(ev: seq<Event>): (ds: seq<int>)
    ensures forall i, j :: 0 <= i < j < |ds| ==> ds[i] < ds[j]
    ensures forall d :: d in ds <==> exists i :: 0 <= i < |ev| && EventDate(ev[i].eventTs) == d
  {
    IntLtIsStrictTotalOrder();
    var days := seq(|ev|, i requires 0 <= i < |ev| => EventDate(ev[i].eventTs));
    assert forall i :: 0 <= i < |ev| ==> days[i] == EventDate(ev[i].eventTs);
    var ds := SortedDistinct(days, IntLt);
    assert forall i, j :: 0 <= i < j < |ds| ==> IntLt(ds[i], ds[j]);
    ds
  }

  /** No session reaches a stage on a day exactly when that day has no event
      of the stage. */
  lemma ReachingEmpty(ev: seq<Event>, d: int, t: EventType)
    ensures |SessionsReaching(ev, d, t)| == 0 <==>
      forall j :: 0 <= j < |ev| && EventDate(ev[j].eventTs) == d ==> ev[j].eventType != t
  {
    var s := SessionsReaching(ev, d, t);
    if |s| > 0 {
      var x :| x in s;
    }
    forall j | 0 <= j < |ev| && EventDate(ev[j].eventTs) == d && ev[j].eventType == t
      ensures |s| > 0
    {
      assert ev[j].sessionId in s;
    }
  }

  /** The funnel row of day `d`: each column counts the distinct sessions at
      that stage on `d`, is zero exactly when `d` has no event of the stage,
      and never exceeds the number of such events. */
  function FunnelRowOf(ev: seq<Event>, d: int): (r: FunnelRow)
    ensures r.eventDate == d
    ensures r.sessionsWithPageView == 0 <==>
      forall j :: 0 <= j < |ev| && EventDate(ev[j].eventTs) == d ==> ev[j].eventType != PageView
    ensures r.sessionsWithAddToCart == 0 <==>
      forall j :: 0 <= j < |ev| && EventDate(ev[j].eventTs) == d ==> ev[j].eventType != AddToCart
    ensures r.sessionsWithPurchase == 0 <==>
      forall j :: 0 <= j < |ev| && EventDate(ev[j].eventTs) == d ==> ev[j].eventType != Purchase
    ensures r.sessionsWithPageView <= CountType(OnDate(ev, d), PageView)
    ensures r.sessionsWithAddToCart <= CountType(OnDate(ev, d), AddToCart)
    ensures r.sessionsWithPurchase <= CountType(OnDate(ev, d), Purchase)
  {
    ReachingEmpty(ev, d, PageView);
    ReachingEmpty(ev, d, AddToCart);
    ReachingEmpty(ev, d, Purchase);
    DistinctAtMostEvents(ev, d, PageView);
    DistinctAtMostEvents(ev, d, AddToCart);
    DistinctAtMostEvents(ev, d, Purchase);
    FunnelRow(d,
      |SessionsReaching(ev, d, PageView)|,
      |SessionsReaching(ev, d, AddToCart)|,
      |SessionsReaching(ev, d, Purchase)|)
  }

  /** fct_funnel_daily: one row per day with events, ascending by day. */
  function FctFunnelDaily(ev: seq<Event>): (rows: seq<FunnelRow>)
    ensures |rows| == |Dates(ev)|
    ensures forall i :: 0 <= i < |rows| ==> rows[i].eventDate == Dates(ev)[i]
    ensures forall i, j :: 0 <= i < j < |rows| ==> rows[i].eventDate < rows[j].eventDate
  {
    var ds := Dates(ev);
    seq(|ds|, i requires 0 <= i < |ds| => FunnelRowOf(ev, ds[i]))
  }

  /** Every row of the funnel is the day of some event, and every event's day has a row. */
  lemma FunnelRowPerDate(ev: seq<Event>)
    ensures forall i :: 0 <= i < |FctFunnelDaily(ev)| ==>
      exists j :: 0 <= j < |ev| && EventDate(ev[j].eventTs) == FctFunnelDaily(ev)[i].eventDate
    ensures forall j :: 0 <= j < |ev| ==>
      exists i :: 0 <= i < |FctFunnelDaily(ev)| && FctFunnelDaily(ev)[i].eventDate == EventDate(ev[j].eventTs)
  {
    var rows, ds := FctFunnelDaily(ev), Dates(ev);
    forall i | 0 <= i < |rows|
      ensures exists j :: 0 <= j < |ev| && EventDate(ev[j].eventTs) == rows[i].eventDate
    {
      assert ds[i] in ds;
    }
    forall j | 0 <= j < |ev|
      ensures exists i :: 0 <= i < |rows| && rows[i].eventDate == EventDate(ev[j].eventTs)
    {
      var d := EventDate(ev[j].eventTs);
      assert d in ds;
      var i :| 0 <= i < |ds| && ds[i] == d;
      assert rows[i].eventDate == d;
    }
  }

  /** Each funnel count is the number of distinct sessions with an event of
      that stage on that day, and is at most the number of such events. */
  lemma FunnelCounts(ev: seq<Event>, i: nat)
    requires i < |FctFunnelDaily(ev)|
    ensures var r := FctFunnelDaily(ev)[i];
      && r.sessionsWithPageView == |SessionsReaching(ev, r.eventDate, PageView)|
      && r.sessionsWithAddToCart == |SessionsReaching(ev, r.eventDate, AddToCart)|
      && r.sessionsWithPurchase == |SessionsReaching(ev, r.eventDate, Purchase)|
      && r.sessionsWithPageView <= CountType(OnDate(ev, r.eventDate), PageView)
      && r.sessionsWithAddToCart <= CountType(OnDate(ev, r.eventDate), AddToCart)
      && r.sessionsWithPurchase <= CountType(OnDate(ev, r.eventDate), Purchase)
  {
    var d := FctFunnelDaily(ev)[i].eventDate;
    DistinctAtMostEvents(ev, d, PageView);
    DistinctAtMostEvents(ev, d, AddToCart);
    DistinctAtMostEvents(ev, d, Purchase);
  }

  /** No row of the funnel is all zeros: its day has an event, and that
      event's session is counted at its stage. */
  lemma FunnelRowNotEmpty(ev: seq<Event>, i: nat)
    requires i < |FctFunnelDaily(ev)|
    ensures var r := FctFunnelDaily(ev)[i];
      r.sessionsWithPageView + r.sessionsWithAddToCart + r.sessionsWithPurchase >= 1
  {
    var ds := Dates(ev);
    var d := ds[i];
    assert d in ds;
    var j :| 0 <= j < |ev| && EventDate(ev[j].eventTs) == d;
    var s := SessionsReaching(ev, d, ev[j].eventType);
    assert ev[j].sessionId in s;
  }

  // ---------------------------------------------------------------- ab_results

  /** A fraction kept exact: the DOUBLE quotient `num * 1.0 / den`. */
  datatype Ratio = Ratio(num: nat, den: nat)

  datatype AbRow = AbRow(
    experimentId: string,
    variant: string,
    sessions: nat,
    conversions: nat,
    conversionRate: Option<Ratio>)

  /** A row of `raw_ab_assignments a JOIN fct_sessions s USING(user_id)`. */
  datatype Joined = Joined(assignment: Assignment, session: SessionRow)

  /** The sessions of one assignment's user, each paired with it. */
  function Matches(a: Assignment, ss: seq<SessionRow>): (j: seq<Joined>)
    ensures |j| <= |ss|
    ensures forall x :: x in j <==> x.assignment == a && x.session in ss && x.session.userId == a.userId
  {
    if ss == [] then []
    else
      var init, last := ss[..|ss| - 1], ss[|ss| - 1];
      assert ss == init + [last];
      if last.userId == a.userId then Matches(a, init) + [Joined(a, last)] else Matches(a, init)
  }

  /** An assignment joins each session of its user as often as the session
      table holds it. */
  lemma {:induction false} MatchesCount(a: Assignment, ss: seq<SessionRow>, x: Joined)
    ensures multiset(Matches(a, ss))[x] ==
      if x.assignment == a && x.session.userId == a.userId then multiset(ss)[x.session] else 0
    decreases |ss|
  {
    if ss != [] {
      var init, last := ss[..|ss| - 1], ss[|ss| - 1];
      assert ss == init + [last];
      MatchesCount(a, init, x);
    }
  }

  /** The inner join on user_id. */
  function Join(asg: seq<Assignment>, ss: seq<SessionRow>): (j: seq<Joined>)
    ensures forall x :: x in j <==> x.assignment in asg && x.session in ss && x.assignment.userId == x.session.userId
  {
    if asg == [] then []
    else
      var init, last := asg[..|asg| - 1], asg[|asg| - 1];
      assert asg == init + [last];
      Join(init, ss) + Matches(last, ss)
  }

  /** One more assignment appends its matches to the join. */
  lemma JoinSnoc(asg: seq<Assignment>, a: Assignment, ss: seq<SessionRow>)
    ensures Join(asg + [a], ss) == Join(asg, ss) + Matches(a, ss)
  {
    assert (asg + [a])[..|asg|] == asg;
  }

  lemma DistributeRight(m: nat, b: nat, c: nat)
    ensures (m + b) * c == m * c + b * c
  {
  }

  /** The inner join holds each pair of an assignment and a session of the
      same user as often as the product of their multiplicities. */
  lemma {:induction false} JoinCount(asg: seq<Assignment>, ss: seq<SessionRow>, x: Joined)
    ensures multiset(Join(asg, ss))[x] ==
      if x.assignment.userId == x.session.userId then multiset(asg)[x.assignment] * multiset(ss)[x.session] else 0
    decreases |asg|
  {
    hide *;
    if asg != [] {
      var init, last := asg[..|asg| - 1], asg[|asg| - 1];
      assert asg == init + [last];
      JoinCount(init, ss, x);
      MatchesCount(last, ss, x);
      JoinSnoc(init, last, ss);
      var here := if last == x.assignment then 1 else 0;
      assert multiset(asg)[x.assignment] == multiset(init)[x.assignment] + here;
      assert multiset(Join(asg, ss))[x] == multiset(Join(init, ss))[x] + multiset(Matches(last, ss))[x];
      if x.assignment.userId == x.session.userId {
        DistributeRight(multiset(init)[x.assignment], here, multiset(ss)[x.session]);
      }
    }
  }

  /** The GROUP BY key (experiment_id, variant) of a joined row. */
  function AbKey(x: Joined): (string, string) {
    (x.assignment.experimentId, x.assignment.variant)
  }

  function AbRowKey(r: AbRow): (string, string) {
    (r.experimentId, r.variant)
  }

  /** The joined rows of one group. */
  function AbGroup(j: seq<Joined>, key: (string, string)): (g: seq<Joined>)
    ensures |g| <= |j|
    ensures forall x :: x in g <==> x in j && AbKey(x) == key
  {
    if j == [] then []
    else
      var init, last := j[..|j| - 1], j[|j| - 1];
      assert j == init + [last];
      if AbKey(last) == key then AbGroup(init, key) + [last] else AbGroup(init, key)
  }

  /** The A/B group holds each joined row of its key as often as the join does. */
  lemma {:induction false} AbGroupCount(j: seq<Joined>, key: (string, string), x: Joined)
    ensures multiset(AbGroup(j, key))[x] == if AbKey(x) == key then multiset(j)[x] else 0
    decreases |j|
  {
    if j != [] {
      var init, last := j[..|j| - 1], j[|j| - 1];
      assert j == init + [last];
      AbGroupCount(init, key, x);
    }
  }

  /** The session ids behind COUNT(DISTINCT s.session_id). */
  function DistinctSessions(g: seq<Joined>): (s: set<string>)
    ensures |s| <= |g|
    ensures forall id :: id in s <==> exists i :: 0 <= i < |g| && g[i].session.sessionId == id
  {
    if g == [] then {}
    else
      var init, last := g[..|g| - 1], g[|g| - 1];
      assert forall i :: 0 <= i < |init| ==> init[i] == g[i];
      DistinctSessions(init) + {last.session.sessionId}
  }

  /** SUM(s.converted). */
  function SumConverted(g: seq<Joined>): (n: nat)
    ensures n == 0 <==> forall i :: 0 <= i < |g| ==> g[i].session.converted == 0
    ensures (forall i :: 0 <= i < |g| ==> g[i].session.converted <= 1) ==> n <= |g|
  {
    if g == [] then 0
    else
      var init, last := g[..|g| - 1], g[|g| - 1];
      assert forall i :: 0 <= i < |init| ==> init[i] == g[i];
      SumConverted(init) + last.session.converted
  }

  /** `x * 1.0 / NULLIF(n, 0)`: NULL when the denominator is zero. */
  function RateOrNull(x: nat, n: nat): (r: Option<Ratio>)
    ensures r.None? <==> n == 0
    ensures r.Some? ==> r.value.num == x && r.value.den == n
  {
    if n == 0 then None else Some(Ratio(x, n))
  }

  /** One row of ab_results from the non-empty group of `key`. */
  function AbRowOf(key: (string, string), g: seq<Joined>): (r: AbRow)
    requires |g| > 0
    ensures AbRowKey(r) == key
    ensures r.sessions == |DistinctSessions(g)| && r.conversions == SumConverted(g)
    ensures 1 <= r.sessions <= |g|
    ensures r.conversionRate == Some(Ratio(r.conversions, r.sessions))
  {
    var s := DistinctSessions(g);
    assert g[0].session.sessionId in s;
    AbRow(key.0, key.1, |s|, SumConverted(g), RateOrNull(SumConverted(g), |s|))
  }

  /** The groups of the join, ascending by (experiment_id, variant): ORDER BY 1, 2. */
  function AbKeys(j: seq<Joined>): (keys: seq<(string, string)>)
    ensures StrictlySorted(keys, PairLt)
    ensures forall k :: k in keys <==> exists i :: 0 <= i < |j| && AbKey(j[i]) == k
  {
    PairLtIsStrictTotalOrder();
    var ks := seq(|j|, i requires 0 <= i < |j| => AbKey(j[i]));
    assert forall i :: 0 <= i < |j| ==> ks[i] == AbKey(j[i]);
    SortedDistinct(ks, PairLt)
  }

  lemma AbKeyHasGroup(j: seq<Joined>, key: (string, string))
    requires key in AbKeys(j)
    ensures |AbGroup(j, key)| > 0
  {
    var i :| 0 <= i < |j| && AbKey(j[i]) == key;
    assert j[i] in AbGroup(j, key);
  }

  function AbRowFor(j: seq<Joined>, key: (string, string)): (r: AbRow)
    requires key in AbKeys(j)
    ensures AbRowKey(r) == key
    ensures r.sessions == |DistinctSessions(AbGroup(j, key))| && r.conversions == SumConverted(AbGroup(j, key))
    ensures r.sessions >= 1 && r.conversionRate == Some(Ratio(r.conversions, r.sessions))
  {
    AbKeyHasGroup(j, key);
    AbRowOf(key, AbGroup(j, key))
  }

  /** ab_results: one row per (experiment_id, variant) with at least one
      joined session, in ascending key order, with a rate that is never NULL. */
  function AbResults(asg: seq<Assignment>, ss: seq<SessionRow>): (rows: seq<AbRow>)
    ensures |rows| == |AbKeys(Join(asg, ss))|
    ensures forall i :: 0 <= i < |rows| ==> AbRowKey(rows[i]) == AbKeys(Join(asg, ss))[i]
    ensures forall i, k :: 0 <= i < k < |rows| ==> PairLt(AbRowKey(rows[i]), AbRowKey(rows[k]))
    ensures forall i :: 0 <= i < |rows| ==>
      rows[i].sessions >= 1 && rows[i].conversionRate == Some(Ratio(rows[i].conversions, rows[i].sessions))
  {
    var j := Join(asg, ss);
    var keys := AbKeys(j);
    seq(|keys|, i requires 0 <= i < |keys| => AbRowFor(j, keys[i]))
  }

  /** Each row of ab_results counts its (experiment_id, variant) group of the
      join: `sessions` is COUNT(DISTINCT s.session_id) and `conversions` is
      SUM(s.converted). */
  lemma AbRowFacts(asg: seq<Assignment>, ss: seq<SessionRow>, i: nat)
    requires i < |AbResults(asg, ss)|
    ensures var r := AbResults(asg, ss)[i];
      var g := AbGroup(Join(asg, ss), AbRowKey(r));
      r.sessions == |DistinctSessions(g)| && r.conversions == SumConverted(g)
  {
    var j := Join(asg, ss);
    var key := AbKeys(j)[i];
    assert AbResults(asg, ss)[i] == AbRowFor(j, key);
  }

  /** Every row of ab_results is the key of some assignment that joins a session. */
  lemma AbRowFromJoin(asg: seq<Assignment>, ss: seq<SessionRow>, i: nat)
    requires i < |AbResults(asg, ss)|
    ensures exists a, s ::
      a in asg && s in ss && a.userId == s.userId && (a.experimentId, a.variant) == AbRowKey(AbResults(asg, ss)[i])
  {
    var j := Join(asg, ss);
    var keys := AbKeys(j);
    assert keys[i] in keys;
    var k :| 0 <= k < |j| && AbKey(j[k]) == keys[i];
    assert j[k] in j;
  }

  /** Every assignment that joins a session has its row in ab_results. */
  lemma JoinedHasAbRow(asg: seq<Assignment>, ss: seq<SessionRow>, a: Assignment, s: SessionRow)
    requires a in asg && s in ss && a.userId == s.userId
    ensures exists i ::
      0 <= i < |AbResults(asg, ss)| && AbRowKey(AbResults(asg, ss)[i]) == (a.experimentId, a.variant)
  {
    var j := Join(asg, ss);
    var x := Joined(a, s);
    assert x in j;
    var k :| 0 <= k < |j| && j[k] == x;
    var keys := AbKeys(j);
    assert AbKey(j[k]) in keys;
    var i :| 0 <= i < |keys| && keys[i] == AbKey(x);
    assert AbRowKey(AbResults(asg, ss)[i]) == AbKey(x);
  }

  // ---------------------------------------------------------------- rate at most one

  predicate NoDuplicates<T(==)>(s: seq<T>) {
    forall i, j :: 0 <= i < j < |s| ==> s[i] != s[j]
  }

  /** At most one assignment row per user, as the generator writes them. */
  predicate OneAssignmentPerUser(asg: seq<Assignment>) {
    forall i, j :: 0 <= i < j < |asg| ==> asg[i].userId != asg[j].userId
  }

  /** No session id on two rows of fct_sessions. */
  predicate UniqueSessionIds(ss: seq<SessionRow>) {
    forall i, j :: 0 <= i < j < |ss| ==> ss[i].sessionId != ss[j].sessionId
  }

  lemma NoDuplicatesAppend<T>(s: seq<T>, t: seq<T>)
    requires NoDuplicates(s) && NoDuplicates(t)
    requires forall x :: x in s ==> x !in t
    ensures NoDuplicates(s + t)
  {
    var st := s + t;
    forall i, j | 0 <= i < j < |st| ensures st[i] != st[j] {
      if j >= |s| && i < |s| {
        assert st[i] in s && st[j] == t[j - |s|];
      } else if i >= |s| {
        assert st[i] == t[i - |s|] && st[j] == t[j - |s|];
      }
    }
  }

  lemma {:induction false} MatchesNoDuplicates(a: Assignment, ss: seq<SessionRow>)
    requires UniqueSessionIds(ss)
    ensures NoDuplicates(Matches(a, ss))
  {
    if ss != [] {
      var init, last := ss[..|ss| - 1], ss[|ss| - 1];
      assert forall k :: 0 <= k < |init| ==> init[k] == ss[k];
      MatchesNoDuplicates(a, init);
      if last.userId == a.userId {
        assert last !in init;
        NoDuplicatesAppend(Matches(a, init), [Joined(a, last)]);
      }
    }
  }

  lemma {:induction false} JoinNoDuplicates(asg: seq<Assignment>, ss: seq<SessionRow>)
    requires OneAssignmentPerUser(asg) && UniqueSessionIds(ss)
    ensures NoDuplicates(Join(asg, ss))
  {
    if asg != [] {
      var init, last := asg[..|asg| - 1], asg[|asg| - 1];
      assert forall k :: 0 <= k < |init| ==> init[k] == asg[k];
      JoinNoDuplicates(init, ss);
      MatchesNoDuplicates(last, ss);
      assert last !in init;
      NoDuplicatesAppend(Join(init, ss), Matches(last, ss));
    }
  }

  lemma {:induction false} AbGroupNoDuplicates(j: seq<Joined>, key: (string, string))
    requires NoDuplicates(j)
    ensures NoDuplicates(AbGroup(j, key))
  {
    if j != [] {
      var init, last := j[..|j| - 1], j[|j| - 1];
      assert forall k :: 0 <= k < |init| ==> init[k] == j[k];
      AbGroupNoDuplicates(init, key);
      if AbKey(last) == key {
        assert last !in init;
        NoDuplicatesAppend(AbGroup(init, key), [last]);
      }
    }
  }

  /** When no session id repeats, COUNT(DISTINCT session_id) counts every row. */
  lemma {:induction false} DistinctSessionsAll(g: seq<Joined>)
    requires forall i, j :: 0 <= i < j < |g| ==> g[i].session.sessionId != g[j].session.sessionId
    ensures |DistinctSessions(g)| == |g|
  {
    if g != [] {
      var init, last := g[..|g| - 1], g[|g| - 1];
      assert forall k :: 0 <= k < |init| ==> init[k] == g[k];
      DistinctSessionsAll(init);
      assert last.session.sessionId !in DistinctSessions(init) by {
        forall k | 0 <= k < |init| ensures init[k].session.sessionId != last.session.sessionId {
          assert g[k].session.sessionId != g[|g| - 1].session.sessionId;
        }
      }
      assert DistinctSessions(g) == DistinctSessions(init) + {last.session.sessionId};
    }
  }

  /** With one assignment per user and unique session ids, the converted
      sessions of one (experiment, variant) group never outnumber its
      distinct sessions. */
  lemma GroupConversionsAtMostSessions(asg: seq<Assignment>, ss: seq<SessionRow>, key: (string, string))
    requires OneAssignmentPerUser(asg) && UniqueSessionIds(ss)
    requires forall k :: 0 <= k < |ss| ==> ss[k].converted <= 1
    ensures var g := AbGroup(Join(asg, ss), key);
      SumConverted(g) <= |DistinctSessions(g)|
  {
    var j := Join(asg, ss);
    var g := AbGroup(j, key);
    JoinNoDuplicates(asg, ss);
    AbGroupNoDuplicates(j, key);
    forall p, q | 0 <= p < q < |g| ensures g[p].session.sessionId != g[q].session.sessionId {
      assert g[p] in g && g[q] in g;
    }
    DistinctSessionsAll(g);
    forall k | 0 <= k < |g| ensures g[k].session.converted <= 1 {
      assert g[k] in g;
      var m :| 0 <= m < |ss| && ss[m] == g[k].session;
    }
  }

  /** With one assignment per user and unique session ids, no row of
      ab_results has more conversions than sessions: every conversion rate is
      at most one. */
  lemma AbConversionsAtMostSessions(asg: seq<Assignment>, ss: seq<SessionRow>)
    requires OneAssignmentPerUser(asg) && UniqueSessionIds(ss)
    requires forall k :: 0 <= k < |ss| ==> ss[k].converted <= 1
    ensures forall i :: 0 <= i < |AbResults(asg, ss)| ==>
      AbResults(asg, ss)[i].conversions <= AbResults(asg, ss)[i].sessions
  {
    var j := Join(asg, ss);
    forall i | 0 <= i < |AbResults(asg, ss)|
      ensures AbResults(asg, ss)[i].conversions <= AbResults(asg, ss)[i].sessions
    {
      var key := AbKeys(j)[i];
      AbKeyHasGroup(j, key);
      assert AbResults(asg, ss)[i] == AbRowOf(key, AbGroup(j, key));
      GroupConversionsAtMostSessions(asg, ss, key);
    }
  }

  // ---------------------------------------------------------------- the build

  /** The warehouse: the four raw tables the loader writes and the six marts. */
  datatype Warehouse = Warehouse(
    rawUsers: seq<User>,
    rawAbAssignments: seq<Assignment>,
    rawEvents: seq<Event>,
    rawOrders: seq<Order>,
    fctEvents: seq<Event>,
    dimUser: seq<User>,
    fctOrders: seq<Order>,
    fctSessions: seq<SessionRow>,
    fctFunnelDaily: seq<FunnelRow>,
    abResults: seq<AbRow>)

  /** The six CREATE OR REPLACE statements, run in order; each later one
      reads the tables the earlier ones have just replaced. */
  function BuildMarts(w: Warehouse): (r: Warehouse)
    ensures r.rawUsers == w.rawUsers && r.rawAbAssignments == w.rawAbAssignments
    ensures r.rawEvents == w.rawEvents && r.rawOrders == w.rawOrders
    ensures r.fctEvents == w.rawEvents && r.dimUser == w.rawUsers && r.fctOrders == w.rawOrders
    ensures r.fctSessions == FctSessions(w.rawEvents)
    ensures r.fctFunnelDaily == FctFunnelDaily(w.rawEvents)
    ensures r.abResults == AbResults(w.rawAbAssignments, FctSessions(w.rawEvents))
  {
    var w1 := w.(fctEvents := FctEvents(w.rawEvents));
    var w2 := w1.(dimUser := DimUser(w1.rawUsers));
    var w3 := w2.(fctOrders := FctOrders(w2.rawOrders));
    var w4 := w3.(fctSessions := FctSessions(w3.fctEvents));
    var w5 := w4.(fctFunnelDaily := FctFunnelDaily(w4.fctEvents));
    var w6 := w5.(abResults := AbResults(w5.rawAbAssignments, w5.fctSessions));
    w6
  }

  /** The marts depend on the raw tables only, not on what they held before. */
  lemma BuildReadsOnlyRawTables(w: Warehouse, v: Warehouse)
    requires w.rawUsers == v.rawUsers && w.rawAbAssignments == v.rawAbAssignments
    requires w.rawEvents == v.rawEvents && w.rawOrders == v.rawOrders
    ensures BuildMarts(w) == BuildMarts(v)
  {
  }

  /** Re-running the build changes nothing. */
  lemma BuildIsIdempotent(w: Warehouse)
    ensures BuildMarts(BuildMarts(w)) == BuildMarts(w)
  {
  }

  // ---------------------------------------------------------------- a worked funnel

  /** Four events of the first day: session `s1` goes page view, add to cart,
      purchase; session `s2` only views a page. */
  predicate TwoSessionDay(ev: seq<Event>, s1: string, s2: string) {
    && s1 != s2
    && |ev| == 4
    && (forall i :: 0 <= i < |ev| ==> 0 <= ev[i].eventTs < MINUTES_PER_DAY)
    && ev[0].sessionId == s1 && ev[0].eventType == PageView
    && ev[1].sessionId == s1 && ev[1].eventType == AddToCart
    && ev[2].sessionId == s1 && ev[2].eventType == Purchase
    && ev[3].sessionId == s2 && ev[3].eventType == PageView
  }

  lemma TwoSessionDates(ev: seq<Event>, s1: string, s2: string)
    requires TwoSessionDay(ev, s1, s2)
    ensures Dates(ev) == [0]
  {
    IntLtIsStrictTotalOrder();
    var days := seq(|ev|, i requires 0 <= i < |ev| => EventDate(ev[i].eventTs));
    assert days == seq(4, _ => 0);
    SortedDistinctOfRepeat(0, 4, IntLt);
  }

  lemma TwoSessionStage(ev: seq<Event>, s1: string, s2: string, t: EventType)
    requires TwoSessionDay(ev, s1, s2)
    ensures SessionsReaching(ev, 0, t) == if t == PageView then {s1, s2} else {s1}
  {
    var reached := SessionsReaching(ev, 0, t);
    forall x | x in reached ensures x == s1 || (t == PageView && x == s2) {
      var i :| 0 <= i < |ev| && ev[i].sessionId == x && EventDate(ev[i].eventTs) == 0 && ev[i].eventType == t;
    }
    match t {
      case PageView => assert EventDate(ev[0].eventTs) == 0 && EventDate(ev[3].eventTs) == 0;
      case AddToCart => assert EventDate(ev[1].eventTs) == 0;
      case Purchase => assert EventDate(ev[2].eventTs) == 0;
    }
  }

  /** The example day's row counts two, one and one sessions. */
  lemma TwoSessionRow(ev: seq<Event>, s1: string, s2: string)
    requires TwoSessionDay(ev, s1, s2)
    ensures FunnelRowOf(ev, 0) == FunnelRow(0, 2, 1, 1)
  {
    TwoSessionStage(ev, s1, s2, PageView);
    TwoSessionStage(ev, s1, s2, AddToCart);
    TwoSessionStage(ev, s1, s2, Purchase);
    assert |{s1, s2}| == 2 && |{s1}| == 1;
  }

  /** Two sessions on one day, one reaching purchase and one only a page view:
      the funnel has one row, counting two sessions with a page view, one with
      an add to cart and one with a purchase. */
  lemma TwoSessionFunnel(ev: seq<Event>, s1: string, s2: string)
    requires TwoSessionDay(ev, s1, s2)
    ensures FctFunnelDaily(ev) == [FunnelRow(0, 2, 1, 1)]
  {
    TwoSessionDates(ev, s1, s2);
    var rows := FctFunnelDaily(ev);
    assert |rows| == 1 && rows[0] == FunnelRowOf(ev, 0);
    TwoSessionRow(ev, s1, s2);
  }
}
