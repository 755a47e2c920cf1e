/** The ordered-trace matcher (run_tlc_expected_witness.py, `_value_at` and
    `_trace_is_complete_and_ordered`).
 */
module TraceMatch {
  import opened JsonTerms
  import opened TlaValues

  type Assignments = map<string, Parsed>

  datatype State = State(number: int, action: string, assignments: Assignments)

  function Follow(value: Option<Parsed>, keys: seq<string>): Option<Parsed>
    decreases keys
  {
    if keys == [] then value
    else if value.None? || !value.value.Mapping? then None
    else
      var m := value.value.entries;
      Follow(if keys[0] in m then Some(m[keys[0]]) else None, keys[1..])
  }

  function ValueAt(a: Assignments, name: string, keys: seq<string>): Option<Parsed> {
    Follow(if name in a then Some(a[name]) else None, keys)
  }

  predicate Reads(a: Assignments, name: string, keys: seq<string>, text: string) {
    ValueAt(a, name, keys) == Some(Scalar(text))
  }

  predicate InSet(a: Assignments, name: string, member: string) {
    name in a && a[name].Members? && member in a[name].members
  }

  // ------------------------------------------------------------------ milestones

  datatype Commit = Commit(node: string, commit: string, executor: string, attempt: string)

  const COMMITS := [
    Commit("root", "c1", "e1", "a1"),
    Commit("child", "c3", "e2", "a1"),
    Commit("leaf", "c4", "e1", "a2")]

  const MILESTONES := 5

  predicate Committed(s: State, c: Commit) {
    && s.action == "TryCommit"
    && InSet(s.assignments, "accepted", c.commit)
    && Reads(s.assignments, "nodeCommit", ["w1", c.node], c.commit)
    && Reads(s.assignments, "status", ["w1", c.node], "governed_committed")
    && Reads(s.assignments, "decisions", [c.commit], "committed")
    && Reads(s.assignments, "nodeExecutor", ["w1", c.node], c.executor)
    && Reads(s.assignments, "nodeAttempt", ["w1", c.node], c.attempt)
  }

  predicate Revoked(s: State) {
    && s.action == "RevokeExecutor"
    && Reads(s.assignments, "executorEligible", ["w1", "e2"], "FALSE")
    && Reads(s.assignments, "agentRevocationEpoch", ["w1", "e2"], "1")
  }

  predicate Rejected(s: State) {
    && s.action == "RejectRevokedAttempt"
    && Reads(s.assignments, "decisions", ["c2"], "denied")
    && InSet(s.assignments, "revocationDenied", "c2")
  }

  /** The state satisfies milestone `k`: three commits, a revocation, a rejection. */
  predicate Hit(s: State, k: nat) {
    if k < |COMMITS| then Committed(s, COMMITS[k]) else if k == 3 then Revoked(s) else Rejected(s)
  }

  // ----------------------------------------------------------------- what is sought

  ghost predicate Numbered(states: seq<State>) {
    forall i :: 0 <= i < |states| ==> states[i].number == i + 1
  }

  /** Whether state `i` satisfies milestone `k`. */
  type Hits = (nat, nat) -> bool

  function HitsOf(states: seq<State>): Hits {
    (i: nat, k: nat) => i < |states| && Hit(states[i], k)
  }

  /** Strictly increasing states after the initial one that satisfy the first milestones. */
  ghost predicate Chosen(n: nat, hits: Hits, picks: seq<nat>) {
    && (forall k :: 0 <= k < |picks| ==> 1 <= picks[k] < n && hits(picks[k], k))
    && (forall j, k :: 0 <= j < k < |picks| ==> picks[j] < picks[k])
  }

  ghost predicate Ordered(n: nat, hits: Hits) {
    exists picks: seq<nat> :: |picks| == MILESTONES && Chosen(n, hits, picks)
  }

  /** No choice of the first `k` milestones ends before the cursor does. */
  ghost predicate Leftmost(n: nat, hits: Hits, cursor: nat, k: nat) {
    forall picks: seq<nat> :: |picks| == k && k > 0 && Chosen(n, hits, picks) ==> cursor <= picks[k - 1] + 1
  }

  /** The choice made so far by always taking the first state that fits. */
  ghost predicate Greedy(n: nat, hits: Hits, picks: seq<nat>, cursor: nat) {
    && Chosen(n, hits, picks) && 1 <= cursor
    && (forall k :: 0 <= k < |picks| ==> picks[k] < cursor)
    && Leftmost(n, hits, cursor, |picks|)
    && (picks == [] ==> cursor == 1)
  }

  lemma ChosenPrefix(n: nat, hits: Hits, picks: seq<nat>, k: nat)
    requires Chosen(n, hits, picks) && k <= |picks|
    ensures Chosen(n, hits, picks[..k])
  {
  }

  /** Any choice of one milestone more has its last state at or after the cursor. */
  lemma LaterThanCursor(n: nat, hits: Hits, picks: seq<nat>, cursor: nat, longer: seq<nat>)
    requires Greedy(n, hits, picks, cursor) && Chosen(n, hits, longer) && |longer| == |picks| + 1
    ensures cursor <= longer[|picks|] < n && hits(longer[|picks|], |picks|)
  {
    var k := |picks|;
    ChosenPrefix(n, hits, longer, k);
    if k > 0 {
      assert longer[..k][k - 1] == longer[k - 1];
      assert cursor <= longer[..k][k - 1] + 1;
    }
  }

  /** The first state from the cursor on that satisfies the next milestone extends the choice. */
  lemma Advance(n: nat, hits: Hits, picks: seq<nat>, cursor: nat, i: nat)
    requires Greedy(n, hits, picks, cursor) && cursor <= i < n && hits(i, |picks|)
    requires forall j :: cursor <= j < i ==> !hits(j, |picks|)
    ensures Greedy(n, hits, picks + [i], i + 1)
  {
    forall longer: seq<nat> | |longer| == |picks| + 1 && Chosen(n, hits, longer) ensures i <= longer[|picks|] {
      LaterThanCursor(n, hits, picks, cursor, longer);
    }
  }

  /** When the scan finds no further state, no choice of all milestones exists. */
  lemma GiveUp(n: nat, hits: Hits, picks: seq<nat>, cursor: nat)
    requires Greedy(n, hits, picks, cursor) && |picks| < MILESTONES
    requires forall j :: cursor <= j < n ==> !hits(j, |picks|)
    ensures !Ordered(n, hits)
  {
    forall all: seq<nat> | |all| == MILESTONES ensures !Chosen(n, hits, all) {
      if Chosen(n, hits, all) {
        ChosenPrefix(n, hits, all, |picks| + 1);
        LaterThanCursor(n, hits, picks, cursor, all[..|picks| + 1]);
        assert false;
      }
    }
  }

  // -------------------------------------------------------- what the milestones are

  function At(node: string, text: string): Parsed {
    Mapping(map["w1" := Mapping(map[node := Scalar(text)])])
  }

  /** A state that records one commit of a node, and nothing else. */
  function CommitState(number: int, action: string, accepted: set<string>, c: Commit, status: string, decision: string): State {
    State(number, action, map[
      "accepted" := Members(accepted),
      "nodeCommit" := At(c.node, c.commit),
      "status" := At(c.node, status),
      "decisions" := Mapping(map[c.commit := Scalar(decision)]),
      "nodeExecutor" := At(c.node, c.executor),
      "nodeAttempt" := At(c.node, c.attempt)])
  }

  function RevokeState(number: int, action: string, executor: string, eligible: string, epoch: string): State {
    State(number, action, map["executorEligible" := At(executor, eligible), "agentRevocationEpoch" := At(executor, epoch)])
  }

  function RejectState(number: int, action: string, commit: string, decision: string, denied: set<string>): State {
    State(number, action, map["decisions" := Mapping(map[commit := Scalar(decision)]), "revocationDenied" := Members(denied)])
  }

  function Governed(number: int, c: Commit): State {
    CommitState(number, "TryCommit", {c.commit}, c, "governed_committed", "committed")
  }

  /** A state made for milestone `k`: root, child and leaf are committed, executor e2 is revoked,
      and its attempt at c2 is rejected. */
  function StateFor(number: int, k: nat): State {
    match k
    case 0 => Governed(number, Commit("root", "c1", "e1", "a1"))
    case 1 => Governed(number, Commit("child", "c3", "e2", "a1"))
    case 2 => Governed(number, Commit("leaf", "c4", "e1", "a2"))
    case 3 => RevokeState(number, "RevokeExecutor", "e2", "FALSE", "1")
    case _ => RejectState(number, "RejectRevokedAttempt", "c2", "denied", {"c2"})
  }

  lemma ReadsAt(a: Assignments, name: string, node: string, text: string, asked: string, wanted: string)
    requires name in a && a[name] == At(node, text)
    ensures Reads(a, name, ["w1", asked], wanted) <==> asked == node && wanted == text
  {
    var inner := Mapping(map[node := Scalar(text)]);
    assert ["w1", asked][1..] == [asked] && [asked][1..] == [];
    assert Follow(Some(inner), [asked]) == Follow(if asked == node then Some(Scalar(text)) else None, []);
    assert Follow(Some(At(node, text)), ["w1", asked]) == Follow(Some(inner), [asked]);
  }

  lemma ReadsKey(a: Assignments, name: string, key: string, text: string, asked: string, wanted: string)
    requires name in a && a[name] == Mapping(map[key := Scalar(text)])
    ensures Reads(a, name, [asked], wanted) <==> asked == key && wanted == text
  {
    assert [asked][1..] == [];
    assert Follow(Some(a[name]), [asked]) == Follow(if asked == key then Some(Scalar(text)) else None, []);
  }

  /** A commit counts as the milestone exactly when node, commit, executor and attempt are the
      expected ones, the commit is accepted, the node governed and the decision a commit. */
  lemma CommittedIff(number: int, action: string, accepted: set<string>, d: Commit, status: string, decision: string, c: Commit)
    ensures
      Committed(CommitState(number, action, accepted, d, status, decision), c) <==>
      action == "TryCommit" && d == c && c.commit in accepted && status == "governed_committed" && decision == "committed"
  {
    var a := CommitState(number, action, accepted, d, status, decision).assignments;
    ReadsAt(a, "nodeCommit", d.node, d.commit, c.node, c.commit);
    ReadsAt(a, "status", d.node, status, c.node, "governed_committed");
    ReadsKey(a, "decisions", d.commit, decision, c.commit, "committed");
    ReadsAt(a, "nodeExecutor", d.node, d.executor, c.node, c.executor);
    ReadsAt(a, "nodeAttempt", d.node, d.attempt, c.node, c.attempt);
  }

  lemma RevokedIff(number: int, action: string, executor: string, eligible: string, epoch: string)
    ensures
      Revoked(RevokeState(number, action, executor, eligible, epoch)) <==>
      action == "RevokeExecutor" && executor == "e2" && eligible == "FALSE" && epoch == "1"
  {
    var a := RevokeState(number, action, executor, eligible, epoch).assignments;
    ReadsAt(a, "executorEligible", executor, eligible, "e2", "FALSE");
    ReadsAt(a, "agentRevocationEpoch", executor, epoch, "e2", "1");
  }

  lemma RejectedIff(number: int, action: string, commit: string, decision: string, denied: set<string>)
    ensures
      Rejected(RejectState(number, action, commit, decision, denied)) <==>
      action == "RejectRevokedAttempt" && commit == "c2" && decision == "denied" && "c2" in denied
  {
    ReadsKey(RejectState(number, action, commit, decision, denied).assignments, "decisions", commit, decision, "c2", "denied");
  }

  /** Which kind of step a milestone asks for. */
  lemma HitAction(s: State, k: nat)
    requires Hit(s, k)
    ensures s.action == if k < 3 then "TryCommit" else if k == 3 then "RevokeExecutor" else "RejectRevokedAttempt"
  {
  }

  lemma ActionsDiffer()
    ensures "TryCommit" != "RevokeExecutor" && "RevokeExecutor" != "RejectRevokedAttempt"
    ensures "TryCommit" != "RejectRevokedAttempt"
  {
    assert |"TryCommit"| == 9 && |"RevokeExecutor"| == 14 && |"RejectRevokedAttempt"| == 20;
  }

  lemma CommitsDiffer()
    ensures "c1" != "c3" && "c3" != "c4" && "c1" != "c4"
  {
    assert "c1"[1] == '1' && "c3"[1] == '3' && "c4"[1] == '4';
  }

  lemma OwnMilestone(number: int, k: nat)
    requires k < MILESTONES
    ensures Hit(StateFor(number, k), k)
  {
    if k < 3 {
      var c := COMMITS[k];
      CommittedIff(number, "TryCommit", {c.commit}, c, "governed_committed", "committed", c);
    } else {
      RevokedIff(number, "RevokeExecutor", "e2", "FALSE", "1");
      RejectedIff(number, "RejectRevokedAttempt", "c2", "denied", {"c2"});
    }
  }

  lemma OtherMilestone(number: int, k: nat, m: nat)
    requires k < MILESTONES && m < MILESTONES && k != m
    ensures !Hit(StateFor(number, k), m)
  {
    ActionsDiffer();
    if k < 3 && m < 3 {
      CommitsDiffer();
      var d := [Commit("root", "c1", "e1", "a1"), Commit("child", "c3", "e2", "a1"), Commit("leaf", "c4", "e1", "a2")][k];
      CommittedIff(number, "TryCommit", {d.commit}, d, "governed_committed", "committed", COMMITS[m]);
    } else if Hit(StateFor(number, k), m) {
      HitAction(StateFor(number, k), m);
    }
  }

  /** A trace that reaches these milestones one after the other and nothing else. */
  function TraceOf(order: seq<nat>): (states: seq<State>)
    ensures |states| == |order| + 1 && forall i :: 0 <= i < |order| ==> states[i + 1] == StateFor(i + 2, order[i])
    ensures states[0] == State(1, "Initial predicate", map[])
  {
    [State(1, "Initial predicate", map[])] + seq(|order|, i requires 0 <= i < |order| => StateFor(i + 2, order[i]))
  }

  lemma TraceHits(order: seq<nat>, i: nat, k: nat)
    requires (forall j :: 0 <= j < |order| ==> order[j] < MILESTONES) && 1 <= i <= |order| && k < MILESTONES
    ensures HitsOf(TraceOf(order))(i, k) <==> order[i - 1] == k
  {
    StateHits(i + 1, order[i - 1], k);
    HitAt(TraceOf(order), i, StateFor(i + 1, order[i - 1]), k);
  }

  lemma HitAt(states: seq<State>, i: nat, s: State, k: nat)
    requires i < |states| && states[i] == s
    ensures HitsOf(states)(i, k) <==> Hit(s, k)
  {
  }

  lemma StateHits(number: int, k: nat, m: nat)
    requires k < MILESTONES && m < MILESTONES
    ensures Hit(StateFor(number, k), m) <==> k == m
  {
    if k == m {
      OwnMilestone(number, k);
    } else {
      OtherMilestone(number, k, m);
    }
  }

  ghost predicate Reaches(order: seq<nat>, hits: Hits) {
    |order| == 5 && forall i: nat, k: nat :: 1 <= i <= 5 && k < 5 ==> (hits(i, k) <==> order[i - 1] == k)
  }

  /** The five milestones are these five states and no others, in this order: of all traces that
      reach five of them, the one from root to rejection is the only one accepted. */
  lemma MilestoneOrder(order: seq<nat>)
    requires |order| == MILESTONES && forall i :: 0 <= i < |order| ==> order[i] < MILESTONES
    ensures Numbered(TraceOf(order)) && TraceOf(order)[0].action == "Initial predicate"
    ensures Ordered(|TraceOf(order)|, HitsOf(TraceOf(order))) <==> order == [0, 1, 2, 3, 4]
  {
    TraceReaches(order);
    TraceIsNumbered(order);
    OnlyInOrder(order, HitsOf(TraceOf(order)));
  }

  lemma TraceReaches(order: seq<nat>)
    requires |order| == MILESTONES && forall i :: 0 <= i < |order| ==> order[i] < MILESTONES
    ensures Reaches(order, HitsOf(TraceOf(order)))
  {
    forall i: nat, k: nat | 1 <= i <= 5 && k < 5 ensures HitsOf(TraceOf(order))(i, k) <==> order[i - 1] == k {
      TraceHits(order, i, k);
    }
  }

  lemma TraceIsNumbered(order: seq<nat>)
    ensures Numbered(TraceOf(order))
  {
    var states := TraceOf(order);
    forall i | 0 <= i < |states| ensures states[i].number == i + 1 {
      if i > 0 {
        assert states[i] == StateFor(i + 1, order[i - 1]);
      }
    }
  }

  lemma InOrderIsChosen(order: seq<nat>, hits: Hits)
    requires Reaches(order, hits) && order == [0, 1, 2, 3, 4]
    ensures Ordered(6, hits)
  {
    var picks: seq<nat> := [1, 2, 3, 4, 5];
    forall k: nat | k < 5 ensures hits(picks[k], k) {
      assert picks[k] == k + 1 && order[k] == k;
    }
    assert Chosen(6, hits, picks);
  }

  lemma ChosenIsInOrder(order: seq<nat>, hits: Hits, picks: seq<nat>)
    requires Reaches(order, hits) && |picks| == MILESTONES && Chosen(6, hits, picks)
    ensures order == [0, 1, 2, 3, 4]
  {
    assert 1 <= picks[0] < picks[1] < picks[2] < picks[3] < picks[4] < 6;
    forall k: nat | k < 5 ensures order[k] == k {
      assert picks[k] == k + 1 && hits(picks[k], k);
    }
  }

  lemma OnlyInOrder(order: seq<nat>, hits: Hits)
    requires Reaches(order, hits)
    ensures Ordered(6, hits) <==> order == [0, 1, 2, 3, 4]
  {
    if order == [0, 1, 2, 3, 4] {
      InOrderIsChosen(order, hits);
    }
    if picks: seq<nat> :| |picks| == MILESTONES && Chosen(6, hits, picks) {
      ChosenIsInOrder(order, hits, picks);
    }
  }

  // ------------------------------------------------------------------- the scan

  method FirstHit(states: seq<State>, cursor: nat, k: nat) returns (at: nat)
    ensures cursor <= at
    ensures at < |states| ==> HitsOf(states)(at, k)
    ensures forall j :: cursor <= j < at && j < |states| ==> !HitsOf(states)(j, k)
  {
    at := cursor;
    while at < |states|
      invariant cursor <= at
      invariant forall j :: cursor <= j < at && j < |states| ==> !HitsOf(states)(j, k)
    {
      if Hit(states[at], k) {
        return;
      }
      at := at + 1;
    }
  }

  /** One milestone of the scan, from the cursor on. */
  method Pass(states: seq<State>, cursor: nat, k: nat, ghost picks: seq<nat>) returns (found: bool, next: nat, ghost more: seq<nat>)
    requires Greedy(|states|, HitsOf(states), picks, cursor) && |picks| == k < MILESTONES
    ensures found ==> Greedy(|states|, HitsOf(states), more, next) && |more| == k + 1
    ensures !found ==> !Ordered(|states|, HitsOf(states))
  {
    var at := FirstHit(states, cursor, k);
    found, next, more := at < |states|, at + 1, picks + [at];
    if found {
      Advance(|states|, HitsOf(states), picks, cursor, at);
    } else {
      GiveUp(|states|, HitsOf(states), picks, cursor);
    }
  }

  method NumberedFromOne(states: seq<State>) returns (ok: bool)
    ensures ok <==> Numbered(states)
  {
    for i := 0 to |states|
      invariant forall j :: 0 <= j < i ==> states[j].number == j + 1
    {
      if states[i].number != i + 1 {
        return false;
      }
    }
    ok := true;
  }

  /** The greedy scan accepts exactly the traces that are numbered from one, start at the initial
      predicate and contain the five milestones in order somewhere after it. */
  method TraceIsCompleteAndOrdered(states: seq<State>) returns (ok: bool)
    ensures ok <==>
      && Numbered(states) && states != [] && states[0].action == "Initial predicate"
      && Ordered(|states|, HitsOf(states))
  {
    ok := NumberedFromOne(states);
    if !ok {
      return;
    }
    if states == [] || states[0].action != "Initial predicate" {
      return false;
    }
    var cursor := 1;
    ghost var picks: seq<nat> := [];
    for k := 0 to |COMMITS|
      invariant |picks| == k && Greedy(|states|, HitsOf(states), picks, cursor)
    {
      ok, cursor, picks := Pass(states, cursor, k, picks);
      if !ok {
        return;
      }
    }
    ok, cursor, picks := Pass(states, cursor, 3, picks);
    if !ok {
      return;
    }
    ok, cursor, picks := Pass(states, cursor, 4, picks);
  }
}
