# Product analytics warehouse, modelled in Dafny

This project models the two working parts of a small product-analytics
pipeline:

- **The synthetic data generator** (`main` in `src/generate/make_data.py`).
  It builds a roster of users with zero-padded ids and assigns each user a
  sticky variant of the `checkout_banner_v1` experiment. For every user it
  then writes one or more sessions. Each session is a page view, optionally
  followed by an add to cart and then a purchase. Every purchase is mirrored
  by a row of the orders table.
- **The mart builder** (`src/marts/build_marts.py`). This is six
  `CREATE OR REPLACE TABLE ... AS SELECT` statements:
  - three typed copies: `fct_events`, `dim_user` and `fct_orders`;
  - the session rollup `fct_sessions`;
  - the daily funnel `fct_funnel_daily`;
  - the experiment read-out `ab_results`.

The generator is imperative: `MakeData.MakeData`, `MakeData.MakeUserSessions`
and `MakeData.MakeSession` are methods with the same loops as the source. Their
contracts tie every session to the draws it consumes. `MakeData.SessionDraw` is
the session that the draws from a given index on produce, and lemmas about it
say which draw feeds which column.
The marts are pure functions over the table contents.

Modelling choices:

- **Time and money.** Timestamps are whole minutes after the campaign start
  (2024-10-01 00:00). Money is integer cents.
- **Randomness.** The `random` module becomes an explicit stream
  `rng: nat -> int`, where `rng(k)` is the raw outcome of the k-th call.
  `randint`, `choice` and `random() < p` are fixed functions of one raw
  outcome.
- **Hashing.** Python's string `hash` is an explicit function parameter.

Modules and their files:

- `Records` (`records.dfy`): the four raw tables.
- `Draws` (`draws.dfy`): how one raw draw becomes a value.
- `Decimal` (`decimal.dfy`): decimal formatting in ids.
- `MakeData` (`make_data.dfy`): the generator.
- `Ordering` (`ordering.dfy`): the orders used by `ORDER BY`.
- `Marts` (`marts.dfy`): the six queries and the build.
- `Pipeline` (`pipeline.dfy`): what the marts report about generated data.

The main results:

- **The generated log.**
  - Every user has at least one session and a page view.
  - Each session is page view → add to cart (1–20 min later) → purchase
    (1–30 min later).
  - Events inside a session come in strictly increasing time.
  - Sessions start on the hour inside the 60-day window.
  - Only purchases carry an order id and revenue, and revenue is at least
    500 cents.
  - The orders table lists the purchase events one for one and in order.
  - The variant is a function of the user id, and the lookup in the session
    loop returns exactly that variant.
- **The marts.**
  - `fct_sessions`:
    - has one row per `(session_id, user_id)` pair;
    - each row's start and end are times of events of its group and bound
      all of them;
    - the three counts add up to the group's size;
    - `converted` is 1 exactly when there is a purchase.
  - `fct_funnel_daily`:
    - has one row per day with events, ascending;
    - each count is a distinct-session count.
  - `ab_results`:
    - has one row per `(experiment_id, variant)` with a joined session,
      ascending;
    - `sessions` is at least 1;
    - the rate is never NULL.
  - Rebuilding is idempotent.
- **The pipeline.**
  - On generated data every session row has a page view and
    purchases ≤ add-to-carts ≤ page views.
  - Session ids never collide across users.
  - Every A/B conversion rate is at most one.

## Model

| member | source | states |
|---|---|---|
| Decimal.Digits | src/generate/make_data.py:43 | `str(n)` of a natural number: non-empty, all digits, no leading zero above 9 |
| Decimal.ValueOfDigits | src/generate/make_data.py:43 | parsing `str(n)` back gives n: the rendering loses nothing |
| Decimal.PadDecimal | src/generate/make_data.py:19 | `{i:05d}`: digits only, and the width is `max(width, len(str(i)))` |
| Decimal.PadDecimalRoundTrip | src/generate/make_data.py:19 | reading the padded digits back gives the index again |
| Decimal.PadDecimalInjective | src/generate/make_data.py:19 | distinct indices give distinct padded strings |
| Decimal.DigitsLength | src/generate/make_data.py:19 | an index below 10^k has at most k digits, so `{i:05d}` pads it to exactly five |
| Records.CountType | src/marts/build_marts.py:51-53 | `SUM(CASE WHEN event_type = t ...)` is at most the row count, and is 0 exactly when no row has type t |
| Draws.RandInt | src/generate/make_data.py:20 | `randint(lo, hi)` lies in `[lo, hi]` |
| Draws.Choice | src/generate/make_data.py:21-22 | `choice(options)` is one of the options |
| Draws.Below | src/generate/make_data.py:49-54 | `random() < p`: a coin with p ≥ 1 always lands heads, one with p = 0 never |
| MakeData.UserId | src/generate/make_data.py:19 | `u` followed by at least five digits that read back as the index |
| MakeData.UserIdInjective | src/generate/make_data.py:19 | user ids are distinct for distinct indices |
| MakeData.UserIdLength | src/generate/make_data.py:19 | below 100000 a user id is "u" plus exactly five digits |
| MakeData.SignupDt | src/generate/make_data.py:20 | signup is a whole day from the start, at most `days - 1` days later |
| MakeData.MakeUser | src/generate/make_data.py:18-23 | row i has id `UserId(i)`, a signup day in the window, a country and a device from the source's lists |
| MakeData.MakeUsers | src/generate/make_data.py:18-23 | exactly n users, row i with id `UserId(i)`, signup day in the window, country and device from the lists |
| MakeData.VariantOf | src/generate/make_data.py:28 | the variant is treatment or control, treatment exactly when the hash is even |
| MakeData.MakeAssignments | src/generate/make_data.py:26-29 | one row per user in roster order, experiment `checkout_banner_v1`, assigned at the start, variant a function of the user id |
| MakeData.FirstVariant | src/generate/make_data.py:38 | `.loc[...].iloc[0]`: present exactly when some row matches, and then the first match's variant |
| MakeData.LookupIsSticky | src/generate/make_data.py:38 | the lookup in the session loop finds the user's hashed variant, which has a conversion probability |
| MakeData.SessionId | src/generate/make_data.py:43 | the session id carries the user id right after its "s_" prefix |
| MakeData.OrderId | src/generate/make_data.py:56 | the order id starts with "o_" and carries the user id right after it |
| MakeData.SessionStart | src/generate/make_data.py:42 | a session starts on a whole hour inside the window |
| MakeData.LogAppend | src/generate/make_data.py:46-58 | two event logs one after the other make a log, since the second opens with a page view |
| MakeData.SessionUser | src/generate/make_data.py:46-58 | every event of a session carries the session's user |
| MakeData.ExtendLog | src/generate/make_data.py:37-59 | appending one user's whole segment (a step of the user loop) keeps the log well formed, purchases priced, orders mirrored and events attributed to roster users, and gives that user a page view |
| MakeData.Purchases | src/generate/make_data.py:58 | the purchase events of a log, as many as it has purchases |
| MakeData.PurchasesAppend | src/generate/make_data.py:58 | the purchases of two logs in sequence are the purchases of each in sequence |
| MakeData.OrderOf | src/generate/make_data.py:59 | an order row agrees with its purchase event on id, user, time and revenue |
| MakeData.OrdersOf | src/generate/make_data.py:58-59 | one order per purchase event, in the same order |
| MakeData.PurchaseInLog | src/generate/make_data.py:55-58 | every purchase in a generated log has an order id and revenue of at least 500 cents |
| MakeData.EventLogPriced | src/generate/make_data.py:57-58 | every purchase of a generated log carries an order id and a revenue |
| MakeData.OrdersOfAppend | src/generate/make_data.py:59 | the orders of two logs in sequence are the orders of each in sequence |
| MakeData.OrdersMirrorPurchases | src/generate/make_data.py:58-59 | the j-th order mirrors the j-th purchase event, with revenue at least 500 cents |
| MakeData.SessionOrders | src/generate/make_data.py:54-59 | a session places one order exactly when it reaches purchase, and none otherwise |
| MakeData.NextOpen | src/generate/make_data.py:46 | the next page view after position s, with no page view in between |
| MakeData.SessionShape | src/generate/make_data.py:45-58 | a session has at most three events, in funnel order, all of one session, in strictly increasing time |
| MakeData.StepInSession | src/generate/make_data.py:50-58 | each later event of a session is the next funnel stage and directly follows the previous one |
| MakeData.FunnelFrom | src/generate/make_data.py:42-58 | the session from one funnel stage on, drawing as the loop body does; it has no contract of its own, and what it produces is stated by `SessionDrawShape`, `SessionDrawCoins` and `SessionDrawColumns` |
| MakeData.SessionDraw | src/generate/make_data.py:42-58 | one session and the next unused draw from draw k on; no contract of its own, its properties are `SessionDrawShape`, `SessionDrawCoins` and `SessionDrawColumns`, and `MakeSession` is proved equal to it |
| MakeData.UserSessions | src/generate/make_data.py:41-58 | the session loop as a function: `count` sessions drawn one after the other; no contract of its own, its properties are `UserSessionsLog` and `UserSessionsNext`, and `MakeUserSessions` is proved equal to it |
| MakeData.SessionCount | src/generate/make_data.py:40 | `max(1, int(gauss))`: at least one session, and a draw of one or more is kept as it is |
| MakeData.SessionDrawShape | src/generate/make_data.py:41-58 | a drawn session is one session of its user: a page view inside the window opens it, each later event is the next funnel step of the same session after a delay in range, and every event spells the user in its session id |
| MakeData.SessionDrawCoins | src/generate/make_data.py:49-54 | a drawn session reaches add to cart exactly when the cart coin (draw k+3) lands under 250‰, and purchase exactly when the variant's coin (draw k+5) lands as well; it uses 4, 6 or 9 draws accordingly |
| MakeData.SessionDrawColumns | src/generate/make_data.py:42-57 | the start comes from the day and hour draws (k, k+1), every session id from the start and the tag draw k+2, the cart delay from draw k+4, the purchase delay from k+6, the order id from the purchase time and the tag draw k+7, and the revenue from draw k+8 floored at 500 cents |
| MakeData.MakeSession | src/generate/make_data.py:42-59 | one turn of the session loop: the events and the next unused draw are exactly `SessionDraw`'s from draw k, form one session of the user naming it in every session id, and the orders placed are exactly the session's purchase |
| MakeData.UserSessionsNext | src/generate/make_data.py:41-59 | one more turn of the session loop appends the session drawn where the earlier turns left off |
| MakeData.UserLogStep | src/generate/make_data.py:41-58 | a session of a user appended to that user's events keeps them a log of that user, with every purchase priced |
| MakeData.UserSessionsLog | src/generate/make_data.py:40-58 | the sessions drawn for one user form a log of that user's events, every purchase priced and every event spelling the user in its session id, with at least one event and four draws per session |
| MakeData.MakeUserSessions | src/generate/make_data.py:41-59 | the session loop of one user appends exactly the sessions `UserSessions` draws from draw k on, and their orders, and returns the next unused draw |
| MakeData.AllDrawnExtend | src/generate/make_data.py:37-59 | one more user drawn after the last keeps the roster-order account of draws and segments |
| MakeData.RosterStep | src/generate/make_data.py:37-59 | the next roster user, with its id and hashed variant, drawing its sessions right after its session-count draw, extends the roster-order account and the log by its segment |
| MakeData.DrawnUserSegment | src/generate/make_data.py:37-59 | the segment drawn for a roster user is a non-empty log of that user's events |
| MakeData.AllDrawnSegments | src/generate/make_data.py:37-59 | every segment of the roster-order account is its user's |
| MakeData.SegmentsLog | src/generate/make_data.py:37-59 | the roster's segments one after another make a log with every purchase priced, events of roster users only, and a page view for every user |
| MakeData.MakeData | src/generate/make_data.py:14-59 | the roster and assignments as specified; the events are the roster-order concatenation of one segment per user, where user u draws its session count at `starts[u]` and its sessions from the next draw on, the first user at draw 3n after the roster's draws and each next user where the previous one left off; the log is well formed, the orders mirror its purchases, every event belongs to a roster user, and every user has a page view |
| Ordering.Insert | src/marts/build_marts.py:69 | inserting into a strictly sorted sequence keeps it sorted and adds exactly the new element |
| Ordering.SortedDistinct | src/marts/build_marts.py:68-69 | `GROUP BY ... ORDER BY`: strictly ascending, with exactly the values of the column |
| Ordering.SortedDistinctOfRepeat | src/marts/build_marts.py:68-69 | a column of one repeated value forms a single group |
| Ordering.IntLtIsStrictTotalOrder | src/marts/build_marts.py:69 | dates are ordered strictly and totally |
| Ordering.StrLtIrreflexive | src/marts/build_marts.py:84 | no string sorts before itself |
| Ordering.StrLtTransitive | src/marts/build_marts.py:84 | string order is transitive |
| Ordering.StrLtTotal | src/marts/build_marts.py:84 | any two different strings are ordered one way or the other |
| Ordering.StrLt | src/marts/build_marts.py:84 | code-point order on text: never relates equal strings, and puts a proper prefix first |
| Ordering.PairLtIsStrictTotalOrder | src/marts/build_marts.py:84 | `ORDER BY 1, 2` on two text columns is a strict total order |
| Marts.FctEvents | src/marts/build_marts.py:11-21 | fct_events has the rows and columns of raw_events |
| Marts.DimUser | src/marts/build_marts.py:23-31 | dim_user has the rows and columns of raw_users |
| Marts.FctOrders | src/marts/build_marts.py:33-41 | fct_orders has the rows and columns of raw_orders |
| Marts.FirstAppearance | src/marts/build_marts.py:56 | the distinct values of a column, each once, none missing |
| Marts.SessionKeys | src/marts/build_marts.py:56 | the groups of `GROUP BY 1,2` are exactly the (session_id, user_id) pairs of the events, each once |
| Marts.Group | src/marts/build_marts.py:55-56 | the events of one group are exactly the events with its key, in table order; their multiplicities are stated by `GroupCount` |
| Marts.GroupCount | src/marts/build_marts.py:51-56 | `GROUP BY` keeps duplicate rows: a group holds each event of its key exactly as often as the table does, and no other event |
| Marts.MinTs | src/marts/build_marts.py:49 | `MIN(event_ts)` is the time of an event of the group and at most every one |
| Marts.MaxTs | src/marts/build_marts.py:50 | `MAX(event_ts)` is the time of an event of the group and at least every one |
| Marts.MaxIndicator | src/marts/build_marts.py:54 | `MAX(CASE ... THEN 1 ELSE 0)` is 0 or 1, and 1 exactly when the group has such an event |
| Marts.TypeCountsPartition | src/marts/build_marts.py:51-53 | page views, add-to-carts and purchases of a group add up to its size |
| Marts.SessionRowOf | src/marts/build_marts.py:46-54 | a session row: start ≤ end, both times of its events; page_views, add_to_cart_events and purchases each count the group's events of that type and add up to its size; converted is 0/1 and 1 exactly when the group has a purchase |
| Marts.KeyHasGroup | src/marts/build_marts.py:56 | every group key has at least one event |
| Marts.RowFor | src/marts/build_marts.py:44-56 | the row built for a key carries that key |
| Marts.FctSessions | src/marts/build_marts.py:44-57 | one row per group key, and no two rows share a key |
| Marts.SessionRowsFromEvents | src/marts/build_marts.py:55-56 | every fct_sessions row is the key of some event |
| Marts.EventHasSessionRow | src/marts/build_marts.py:55-56 | every event's key has its row in fct_sessions |
| Marts.SessionRowFacts | src/marts/build_marts.py:49-54 | a row's start and end are event times of its session and bound them all; each count is the number of its session's events of that type; converted is 0/1 and 1 exactly when some event of the session is a purchase |
| Marts.EventDate | src/marts/build_marts.py:63 | `CAST(event_ts AS DATE)` is the day whose minutes contain the timestamp |
| Marts.SessionsReaching | src/marts/build_marts.py:64-66 | the sessions counted by `COUNT(DISTINCT CASE ...)` are exactly those with an event of that stage on that day |
| Marts.OnDate | src/marts/build_marts.py:68 | the events of one day are exactly the events whose date is that day |
| Marts.DistinctAtMostEvents | src/marts/build_marts.py:64-66 | a distinct-session count never exceeds the number of events it counts |
| Marts.Dates | src/marts/build_marts.py:63-69 | the funnel's days: strictly ascending, exactly the days with events |
| Marts.FctFunnelDaily | src/marts/build_marts.py:60-70 | one row per day, in strictly ascending order of day |
| Marts.FunnelRowPerDate | src/marts/build_marts.py:68 | every funnel row is the day of some event, and every event's day has a row |
| Marts.ReachingEmpty | src/marts/build_marts.py:64-66 | no session reaches a stage on a day exactly when the day has no event of that stage |
| Marts.FunnelRowOf | src/marts/build_marts.py:62-66 | a day's row: each column is zero exactly when the day has no event of the stage, and at most the number of such events |
| Marts.FunnelCounts | src/marts/build_marts.py:64-66 | each count is the number of distinct sessions reaching that stage that day, at most the events of that stage |
| Marts.FunnelRowNotEmpty | src/marts/build_marts.py:63-68 | no funnel row is all zeros |
| Marts.TwoSessionDates | src/marts/build_marts.py:63-69 | four events of one day give one funnel day |
| Marts.TwoSessionStage | src/marts/build_marts.py:64-66 | in the two-session day, both sessions reach page view, only the buyer reaches cart and purchase |
| Marts.TwoSessionRow | src/marts/build_marts.py:62-66 | the example day's row counts two page-view sessions, one add-to-cart session and one purchasing session |
| Marts.TwoSessionFunnel | src/marts/build_marts.py:60-70 | two sessions on one day, one buying: the funnel row is (day, 2, 1, 1) |
| Marts.Matches | src/marts/build_marts.py:82 | the sessions joined to one assignment are exactly those of its user |
| Marts.MatchesCount | src/marts/build_marts.py:82 | an assignment is joined with each session of its user exactly as often as the session table holds it, and with nothing else |
| Marts.Join | src/marts/build_marts.py:81-82 | `JOIN ... USING(user_id)` holds exactly the pairs of an assignment and a session of the same user; their multiplicities are stated by `JoinCount` |
| Marts.JoinCount | src/marts/build_marts.py:81-82 | the inner join holds each pair of an assignment and a session of the same user exactly as often as the product of their multiplicities, and no other pair |
| Marts.AbGroup | src/marts/build_marts.py:83 | the joined rows of one (experiment_id, variant) group are exactly those with that key; their multiplicities are stated by `AbGroupCount` |
| Marts.AbGroupCount | src/marts/build_marts.py:78-83 | an (experiment_id, variant) group holds each joined row of its key exactly as often as the join does, and no other row |
| Marts.DistinctSessions | src/marts/build_marts.py:78 | `COUNT(DISTINCT s.session_id)` counts exactly the session ids of the group, at most its size |
| Marts.SumConverted | src/marts/build_marts.py:79 | `SUM(s.converted)` is 0 exactly when no session converted, and at most the group size for 0/1 flags |
| Marts.RateOrNull | src/marts/build_marts.py:80 | `x * 1.0 / NULLIF(n, 0)` is NULL exactly when n is 0, and otherwise the fraction x/n |
| Marts.AbRowOf | src/marts/build_marts.py:75-80 | an A/B row: sessions is the number of distinct session ids of the group (between 1 and its size), conversions the sum of its converted flags, rate conversions/sessions |
| Marts.AbKeys | src/marts/build_marts.py:83-84 | the A/B groups: strictly ascending by (experiment_id, variant), exactly the keys of the join |
| Marts.AbKeyHasGroup | src/marts/build_marts.py:83 | every A/B key has at least one joined row |
| Marts.AbRowFor | src/marts/build_marts.py:73-84 | the row for a key carries it, counts the distinct sessions and sums the converted flags of the key's group, and has a non-NULL rate |
| Marts.AbRowFacts | src/marts/build_marts.py:78-79 | each ab_results row's sessions is COUNT(DISTINCT session_id) and conversions SUM(converted) over its (experiment_id, variant) group of the join |
| Marts.AbResults | src/marts/build_marts.py:73-85 | one row per key of the join, ascending, each with sessions ≥ 1 and rate conversions/sessions, never NULL |
| Marts.AbRowFromJoin | src/marts/build_marts.py:81-83 | every A/B row comes from an assignment that joins a session |
| Marts.JoinedHasAbRow | src/marts/build_marts.py:81-83 | every assignment that joins a session has its row in ab_results |
| Marts.NoDuplicatesAppend | src/marts/build_marts.py:82 | concatenating disjoint duplicate-free tables gives a duplicate-free table |
| Marts.MatchesNoDuplicates | src/marts/build_marts.py:82 | with unique session ids, one assignment joins each session once |
| Marts.JoinNoDuplicates | src/marts/build_marts.py:81-82 | with one assignment per user and unique session ids the join has no repeated row |
| Marts.AbGroupNoDuplicates | src/marts/build_marts.py:83 | a group of a duplicate-free join is duplicate free |
| Marts.DistinctSessionsAll | src/marts/build_marts.py:78 | with no repeated session id the distinct count equals the row count |
| Marts.GroupConversionsAtMostSessions | src/marts/build_marts.py:78-80 | with one assignment per user and unique session ids, a group's converted sessions never outnumber its distinct sessions |
| Marts.AbConversionsAtMostSessions | src/marts/build_marts.py:73-85 | with one assignment per user and unique session ids, every ab_results row has conversions ≤ sessions: the rate is at most one |
| Marts.BuildMarts | src/marts/build_marts.py:7-85 | the build leaves the raw tables alone and replaces each mart by its query over the raw tables |
| Marts.BuildReadsOnlyRawTables | src/marts/build_marts.py:7-85 | the marts depend only on the raw tables, not on earlier marts |
| Marts.BuildIsIdempotent | src/marts/build_marts.py:11-85 | running the build twice gives the same warehouse as once |
| Pipeline.FunnelCredit | src/generate/make_data.py:46-58 | in every prefix of a generated log, a session has no more add-to-carts than page views and no more purchases than add-to-carts |
| Pipeline.SessionFunnelCounts | src/generate/make_data.py:45-58 | in a generated log, each group has a page view and purchases ≤ add-to-carts ≤ page views |
| Pipeline.GeneratedSessionRows | src/marts/build_marts.py:44-56 | each fct_sessions row of generated data has a page view, purchases ≤ add-to-carts ≤ page views, and an add to cart when converted |
| Pipeline.GeneratedAssignmentsOnePerUser | src/generate/make_data.py:26-28 | the generator writes one assignment per user |
| Pipeline.GeneratedUsersSixChars | src/generate/make_data.py:19-43 | below 100000 users, every generated event has a six-character user id spelled inside its session id |
| Pipeline.SessionRowNamesUser | src/marts/build_marts.py:44-56 | when events spell their six-character user in the session id, so does every fct_sessions row |
| Pipeline.SessionIdsUnique | src/marts/build_marts.py:44-56 | under the same condition no two fct_sessions rows share a session id |
| Pipeline.GeneratedRateAtMostOne | src/marts/build_marts.py:73-85 | over generated data every ab_results row has a rate, and conversions ≤ sessions |
| Pipeline.SourceRunRateAtMostOne | src/generate/make_data.py:14-16 | for the run `main` performs (5000 users, 60 days) every ab_results row has a rate, and conversions ≤ sessions |

## Left out

- Writing and reading the CSV files, the DuckDB connection and the final
  printouts are left out. These are I/O. The loader `src/ingest/load_raw.py`
  is not part of this model.
- The distributions of the draws are not modelled: the uniformity of
  `randint`, `choice` and `random()`, and the normal shape of `gauss`. A
  draw is an arbitrary integer. The constants (0.25, 0.06, 0.072, the delay
  ranges and the 5-dollar floor) are kept, so the expected A/B lift and
  conversion percentages are not stated.
- `random.random() < p` is compared at a resolution of one in a thousand.
  This is exact for every probability the source uses.
- `int(random.gauss(3.5, 1.5))` and `round(max(5, gauss(65, 25)), 2)` are
  modelled as integer draws already truncated or rounded. They are taken in
  sessions and in cents, and the source's `max` is applied to them.
- Python's string `hash` is a function parameter. Its per-process
  randomisation is not modelled, and neither is the resulting lack of
  reproducibility across runs.
- Dates are minutes after 2024-10-01 00:00. The epoch seconds of the start,
  which depend on the local timezone, are a parameter. Daylight-saving shifts
  inside the window are not modelled.
- `CAST(... AS DOUBLE)` and the floating-point rate are exact: revenue is
  integer cents, and the rate is the fraction `Ratio(conversions, sessions)`.
- The `event_type` column holds only the three values the generator writes.
  Rows of other types in a hand-edited raw table are not modelled, and
  neither are NULL user ids, session ids or timestamps.
- `GROUP BY` without `ORDER BY` (fct_sessions) leaves the row order to the
  engine. The model lists groups in order of first appearance, and no
  property depends on that order.
- MakeData.MakeData: the number of sessions per user is any integer draw
  clamped at 1. Its distribution is not modelled.
- MakeData.MakeData requires `days >= 1`. With zero days the source's
  `randint(0, -1)` raises.
- Session ids and order ids are not shown to be unique between sessions of
  the same user. Two sessions in the same hour with the same three-digit tag
  get the same id, and the warehouse then merges them into one row. Across
  users the ids never collide (`Pipeline.GeneratedUsersSixChars` with `Pipeline.SessionIdsUnique`).
- Pipeline.GeneratedRateAtMostOne: stated for at most 100000 users, where
  every user id has the same length. The source runs with 5000, and
  `Pipeline.SourceRunRateAtMostOne` states the result for that run.
- Per-day monotonicity of the funnel (add-to-cart sessions ≤ page-view
  sessions on each day) is not stated. A session that crosses midnight puts
  its stages on different days.
