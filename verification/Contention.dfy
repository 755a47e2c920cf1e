/** Classification of outbox recovery failures (authority_service.py, `_is_transient_contention`).

    Exceptions form a graph through `__cause__` and `__context__`, which may be cyclic.  The
    graph is a finite map from `id(...)` to the exception; the links of every exception are in
    the map.
 */
module Contention {
  import opened JsonTerms

  const SQLITE_BUSY := 5

  /** `sqliteCode` is None when the attribute is missing or not an exact int. */
  datatype Exc = Exc(operational: bool, sqliteCode: Option<int>, cause: Option<nat>, context: Option<nat>)

  type Graph = map<nat, Exc>

  /** `code & 0xFF` is the residue modulo 256, for negative codes too. */
  predicate IsSqliteBusy(e: Exc) {
    e.operational && e.sqliteCode.Some? && e.sqliteCode.value % 256 == SQLITE_BUSY
  }

  /** The primary code of an extended result code is its low byte. */
  ghost predicate Extends(code: int, primary: int, k: int) {
    code == primary + 256 * k
  }

  /** Busy are exactly the operational errors whose code is 5 or an extension of it, of either
      sign; SQLITE_LOCKED (6) and its extensions are not, nor is an error without a code. */
  lemma BusyIff(e: Exc, k: int)
    ensures IsSqliteBusy(e) <==> e.operational && e.sqliteCode.Some? && exists m :: Extends(e.sqliteCode.value, 5, m)
    ensures e.sqliteCode == Some(6 + 256 * k) ==> !IsSqliteBusy(e)
  {
    if e.sqliteCode.Some? {
      var code := e.sqliteCode.value;
      if code % 256 == 5 {
        assert Extends(code, 5, code / 256);
      }
      if m :| Extends(code, 5, m) {
        assert code % 256 == 5;
      }
    }
  }

  predicate LinksTo(e: Exc, n: nat) {
    e.cause == Some(n) || e.context == Some(n)
  }

  ghost predicate Closed(g: Graph) {
    forall k, n: nat :: k in g && LinksTo(g[k], n) ==> n in g
  }

  ghost predicate IsPath(g: Graph, path: seq<nat>) {
    && |path| > 0
    && (forall i :: 0 <= i < |path| ==> path[i] in g)
    && (forall i :: 0 <= i < |path| - 1 ==> LinksTo(g[path[i]], path[i + 1]))
  }

  ghost predicate PathBetween(g: Graph, a: nat, b: nat, path: seq<nat>) {
    IsPath(g, path) && path[0] == a && path[|path| - 1] == b
  }

  ghost predicate Reachable(g: Graph, a: nat, b: nat) {
    exists path :: PathBetween(g, a, b, path)
  }

  /** What the classifier promises: an outbox recovery error with a cause, and nothing but
      SQLITE_BUSY anywhere behind that cause. */
  ghost predicate OnlyBusyBehind(g: Graph, root: nat)
    requires root in g
  {
    && g[root].cause.Some?
    && forall e :: Reachable(g, g[root].cause.value, e) ==> e in g && IsSqliteBusy(g[e])
  }

  lemma ReachSelf(g: Graph, a: nat)
    requires a in g
    ensures Reachable(g, a, a)
  {
    assert PathBetween(g, a, a, [a]);
  }

  lemma ReachStep(g: Graph, a: nat, b: nat, c: nat)
    requires Reachable(g, a, b) && b in g && c in g && LinksTo(g[b], c)
    ensures Reachable(g, a, c)
  {
    var path :| PathBetween(g, a, b, path);
    assert PathBetween(g, a, c, path + [c]);
  }

  /** A set that contains the start and is closed under links contains every reachable node. */
  lemma {:induction false} ClosedSetHoldsPath(g: Graph, s: set<nat>, path: seq<nat>)
    requires IsPath(g, path) && path[0] in s
    requires forall k, n: nat :: k in s && k in g && LinksTo(g[k], n) ==> n in s
    ensures path[|path| - 1] in s
    decreases |path|
  {
    if |path| > 1 {
      assert LinksTo(g[path[0]], path[1]);
      ClosedSetHoldsPath(g, s, path[1..]);
    }
  }

  method IsTransientContention(g: Graph, recoveryError: bool, root: nat) returns (transient: bool)
    requires Closed(g) && root in g
    ensures transient <==> recoveryError && OnlyBusyBehind(g, root)
  {
    if !recoveryError {
      return false;
    }
    if g[root].cause.None? {
      return false;
    }
    var cause := g[root].cause.value;
    assert LinksTo(g[root], cause);
    ReachSelf(g, cause);
    var pending := [cause];
    var seen: set<nat> := {};
    while pending != []
      invariant seen <= g.Keys
      invariant forall i :: 0 <= i < |pending| ==> pending[i] in g && Reachable(g, cause, pending[i])
      invariant forall k :: k in seen ==> Reachable(g, cause, k) && IsSqliteBusy(g[k])
      invariant cause in seen || cause in pending
      invariant forall k, n: nat :: k in seen && LinksTo(g[k], n) ==> n in seen || n in pending
      decreases g.Keys - seen, |pending|
    {
      var current := pending[|pending| - 1];
      ghost var before := pending;
      pending := pending[..|pending| - 1];
      assert before == pending + [current];
      if current in seen {
        continue;
      }
      seen := seen + {current};
      if !IsSqliteBusy(g[current]) {
        return false;
      }
      var links := LinksOf(g[current]);
      forall i | 0 <= i < |links| ensures links[i] in g && Reachable(g, cause, links[i]) {
        ReachStep(g, cause, current, links[i]);
      }
      pending := pending + links;
    }
    forall e | Reachable(g, cause, e) ensures e in g && IsSqliteBusy(g[e]) {
      var path :| PathBetween(g, cause, e, path);
      ClosedSetHoldsPath(g, seen, path);
    }
    return true;
  }

  /** The non-null links, cause before context. */
  function LinksOf(e: Exc): (links: seq<nat>)
    ensures forall n: nat :: n in links <==> LinksTo(e, n)
  {
    (if e.cause.Some? then [e.cause.value] else []) + (if e.context.Some? then [e.context.value] else [])
  }

  /** A busy error that masks a sink failure stays fatal, even when the two exceptions refer to
      each other in a cycle. */
  lemma MaskedFailureIsFatal(g: Graph, root: nat, busy: nat, sink: nat)
    requires Closed(g) && root in g && busy in g && sink in g
    requires g[root].cause == Some(busy) && g[busy].context == Some(sink) && !IsSqliteBusy(g[sink])
    ensures !OnlyBusyBehind(g, root)
  {
    ReachSelf(g, busy);
    ReachStep(g, busy, busy, sink);
  }
}
