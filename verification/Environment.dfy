/** What one request takes from outside: the clock, the freedom PostgreSQL leaves a query, and random values. */
module Environment {
  import opened Wrappers
  import C = Constants
  import Jwt

  datatype Rows = Rows(pick: set<int> -> int, order: set<int> -> seq<int>)

  ghost predicate Lists(ids: seq<int>, s: set<int>) {
    && (forall i | 0 <= i < |ids| :: ids[i] in s)
    && (forall x | x in s :: x in ids)
    && forall i, j | 0 <= i < j < |ids| :: ids[i] != ids[j]
  }

  /** A planner answers queries truthfully: one row that matches, or each matching row once in some order. */
  ghost predicate Truthful(q: Rows) {
    && (forall s: set<int> :: s != {} ==> q.pick(s) in s)
    && (forall s: set<int> :: Lists(q.order(s), s))
  }

  ghost function AnyOf(s: set<int>): (x: int)
    ensures s != {} ==> x in s
  {
    if exists x :: x in s then var x :| x in s; x else 0
  }

  ghost function AnyOrder(s: set<int>): (ids: seq<int>)
    ensures Lists(ids, s)
  {
    if exists x :: x in s then var x :| x in s; [x] + AnyOrder(s - {x}) else []
  }

  ghost function AnyPlanner(): (q: Rows)
    ensures Truthful(q)
  {
    Rows(s => AnyOf(s), s => AnyOrder(s))
  }

  type Planner = q: Rows | Truthful(q) ghost witness AnyPlanner()

  /** Microseconds since the epoch. */
  type Instant = t: int | 0 <= t && t / 1_000_000 <= C.MAX_I64 - Jwt.TOKEN_TTL

  /** `timestamp()`: whole seconds. */
  function Seconds(t: Instant): Jwt.Second { t / 1_000_000 }

  const DAY := 86_400_000_000

  datatype Env = Env(now: Instant, planner: Planner, resetToken: string, temporaryPassword: string, key: int)

  /** `fetch_optional`. */
  function First(q: Planner, rows: set<int>): (r: Option<int>)
    ensures r.None? <==> rows == {}
    ensures r.Some? ==> r.value in rows
  {
    if rows == {} then None else Some(q.pick(rows))
  }

  /** `fetch_all`. */
  function All(q: Planner, rows: set<int>): (ids: seq<int>)
    ensures Lists(ids, rows)
  {
    q.order(rows)
  }
}
