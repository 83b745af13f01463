/** What the marts report about the data the generator writes: the two
    halves of the pipeline put together. */
module Pipeline {
  import opened Records
  import opened MakeData
  import opened Marts
  import Draws

  function Indicator(b: bool): nat {
    if b then 1 else 0
  }

  /** Scanning a log from the front, each add to cart of a session uses up the
      page view just before it, and each purchase the add to cart just before
      it: so a prefix never holds more add-to-carts than page views of one
      session, nor more purchases than add-to-carts, counting an unused last
      event as spent. */
  lemma {:induction false} FunnelCredit(ev: seq<Event>, days: nat, key: (string, string), n: nat)
    requires EventLog(ev, days) && 1 <= n <= |ev|
    ensures var g := Group(ev[..n], key);
      && CountType(g, AddToCart) + Indicator(ev[n - 1].eventType == PageView && KeyOf(ev[n - 1]) == key)
           <= CountType(g, PageView)
      && CountType(g, Purchase) + Indicator(ev[n - 1].eventType == AddToCart && KeyOf(ev[n - 1]) == key)
           <= CountType(g, AddToCart)
  {
    var p := ev[..n];
    var g := Group(p, key);
    var e := ev[n - 1];
    assert p[..n - 1] == ev[..n - 1];
    if n == 1 {
      assert Opens(e, days);
      assert Group([], key) == [];
    } else {
      FunnelCredit(ev, days, key, n - 1);
      var h := Group(ev[..n - 1], key);
      assert Opens(e, days) || Follows(ev[n - 2], e);
      if KeyOf(e) == key {
        assert g == h + [e];
        assert g[..|g| - 1] == h;
      } else {
        assert g == h;
      }
    }
  }

  /** In a generated log, the group of every (session_id, user_id) pair has at
      least one page view, no more add-to-carts than page views and no more
      purchases than add-to-carts. */
  lemma SessionFunnelCounts(ev: seq<Event>, days: nat, key: (string, string))
    requires EventLog(ev, days) && key in SessionKeys(ev)
    ensures var g := Group(ev, key);
      && CountType(g, Purchase) <= CountType(g, AddToCart) <= CountType(g, PageView)
      && CountType(g, PageView) >= 1
  {
    KeyHasGroup(ev, key);
    assert ev[..|ev|] == ev;
    FunnelCredit(ev, days, key, |ev|);
    TypeCountsPartition(Group(ev, key));
  }

  /** The rows of fct_sessions built from a generated log respect the funnel:
      a page view in every session, add-to-carts at most page views, purchases
      at most add-to-carts, and a converted session always has an add to cart. */
  lemma GeneratedSessionRows(ev: seq<Event>, days: nat, i: nat)
    requires EventLog(ev, days) && i < |FctSessions(ev)|
    ensures var r := FctSessions(ev)[i];
      && r.pageViews >= 1
      && r.purchases <= r.addToCartEvents <= r.pageViews
      && (r.converted == 1 ==> r.addToCartEvents >= 1)
  {
    var key := SessionKeys(ev)[i];
    assert key in SessionKeys(ev);
    KeyHasGroup(ev, key);
    SessionFunnelCounts(ev, days, key);
    SessionRowFacts(ev, i);
  }

  /** The generator writes one assignment per user. */
  lemma GeneratedAssignmentsOnePerUser(n: nat, days: nat, rng: Draws.Rng, hash: string -> int)
    requires days >= 1
    ensures OneAssignmentPerUser(MakeAssignments(MakeUsers(n, days, rng), hash))
  {
    var a := MakeAssignments(MakeUsers(n, days, rng), hash);
    assert forall i :: 0 <= i < |a| ==> a[i].userId == UserId(i);
  }

  /** Every event names a six-character user, and its session id spells it. */
  predicate SixCharUsers(ev: seq<Event>) {
    forall j :: 0 <= j < |ev| ==> |ev[j].userId| == 6 && NamesUser(ev[j])
  }

  /** Below 100000 users, every user id of the roster has six characters, so
      every generated event spells its six-character user in its session id. */
  lemma GeneratedUsersSixChars(n: nat, days: nat, rng: Draws.Rng, ev: seq<Event>)
    requires days >= 1 && n <= 100000
    requires Attributed(ev, RosterIds(MakeUsers(n, days, rng)))
    ensures SixCharUsers(ev)
  {
    var users := MakeUsers(n, days, rng);
    forall j | 0 <= j < |ev| ensures |ev[j].userId| == 6 {
      assert ev[j].userId in RosterIds(users);
      var i :| 0 <= i < |users| && users[i].userId == ev[j].userId;
      UserIdLength(i);
    }
  }

  /** When every event spells its six-character user in its session id, so
      does every row of fct_sessions. */
  lemma SessionRowNamesUser(ev: seq<Event>, p: nat)
    requires SixCharUsers(ev) && p < |FctSessions(ev)|
    ensures var r := FctSessions(ev)[p];
      |r.sessionId| >= 8 && r.userId == r.sessionId[2..8]
  {
    SessionRowsFromEvents(ev, p);
    var j :| 0 <= j < |ev| && KeyOf(ev[j]) == RowKey(FctSessions(ev)[p]);
    assert NamesUser(ev[j]);
  }

  /** Session ids that spell their user are never shared by two rows of
      fct_sessions. */
  lemma SessionIdsUnique(ev: seq<Event>)
    requires SixCharUsers(ev)
    ensures UniqueSessionIds(FctSessions(ev))
  {
    var ss := FctSessions(ev);
    forall p, q | 0 <= p < q < |ss| ensures ss[p].sessionId != ss[q].sessionId {
      SessionRowNamesUser(ev, p);
      SessionRowNamesUser(ev, q);
    }
  }

  /** For the generated data, every row of ab_results has a conversion rate,
      and it is at most one: no more conversions than distinct sessions. */
  lemma GeneratedRateAtMostOne(n: nat, days: nat, rng: Draws.Rng, hash: string -> int, ev: seq<Event>)
    requires days >= 1 && n <= 100000
    requires Attributed(ev, RosterIds(MakeUsers(n, days, rng)))
    ensures var rows := AbResults(MakeAssignments(MakeUsers(n, days, rng), hash), FctSessions(ev));
      forall i :: 0 <= i < |rows| ==>
        rows[i].conversions <= rows[i].sessions && rows[i].conversionRate == Some(Marts.Ratio(rows[i].conversions, rows[i].sessions))
  {
    var ss := FctSessions(ev);
    forall k | 0 <= k < |ss| ensures ss[k].converted <= 1 {
      SessionRowFacts(ev, k);
    }
    GeneratedUsersSixChars(n, days, rng, ev);
    SessionIdsUnique(ev);
    GeneratedAssignmentsOnePerUser(n, days, rng, hash);
    AbConversionsAtMostSessions(MakeAssignments(MakeUsers(n, days, rng), hash), ss);
  }

  /** The run `main` performs, 5000 users over 60 days, is inside that bound:
      every ab_results row of its data has conversions at most sessions. */
  lemma SourceRunRateAtMostOne(rng: Draws.Rng, hash: string -> int, ev: seq<Event>)
    requires Attributed(ev, RosterIds(MakeUsers(N_USERS, DAYS, rng)))
    ensures var rows := AbResults(MakeAssignments(MakeUsers(N_USERS, DAYS, rng), hash), FctSessions(ev));
      forall i :: 0 <= i < |rows| ==>
        rows[i].conversions <= rows[i].sessions && rows[i].conversionRate == Some(Marts.Ratio(rows[i].conversions, rows[i].sessions))
  {
    GeneratedRateAtMostOne(N_USERS, DAYS, rng, hash, ev);
  }
}
