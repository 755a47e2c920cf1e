/** The artifact store as values: every lock region is one step of a state machine over the
    publication log (artifact.py, `ArtifactStore` and its projection ports).

    Callables are identities: a guard or a watcher is a number, and what a guard answers when it
    is asked is given by the environment of the step.  A capability object is the number under
    which it was minted.
 */
module Stores {
  import opened JsonTerms
  import opened Indexing
  import opened Artifacts

  /** Workflow and artifact id. */
  type Key = (string, string)

  datatype Answer = Allow | Deny | Raise

  /** What a guard answers for an artifact id at one moment. */
  type Ask = (nat, string) -> Answer

  datatype Guarded = Guarded(capability: nat, guard: nat)

  datatype Refusal =
    | Sealed | SealConflict | InvalidCapability | NotAuthoritative
    | AlreadyExists | NotCanonical | WorkflowRequired

  datatype Outcome = Done | Bound(capability: nat) | Stored(callbacks: seq<nat>) | Refused(why: Refusal)

  /** `order` is the insertion order of the artifact dictionary: the publication log. */
  datatype Store = Store(
    order: seq<Key>,
    artifacts: map<Key, Artifact>,
    digests: map<Key, ContentHash>,
    revoked: set<Key>,
    watchers: map<Key, seq<nat>>,
    guards: map<string, Guarded>,
    seals: map<string, string>,
    minted: nat)

  const EMPTY := Store([], map[], map[], {}, map[], map[], map[], 0)

  // ----------------------------------------------------------------- lock regions

  function Callbacks(s: Store, workflow: string, a: Artifact): seq<nat> {
    Lookup(s.watchers, (workflow, a.task)) + Lookup(s.watchers, (workflow, a.domain))
  }

  function Insert(s: Store, workflow: string, a: Artifact): (Store, Outcome) {
    var key := (workflow, a.id);
    if key in s.artifacts then (s, Refused(AlreadyExists))
    else if HashOf(a).None? then (s, Refused(NotCanonical))
    else
      (s.(order := s.order + [key], artifacts := s.artifacts[key := a], digests := s.digests[key := HashOf(a).value]),
       Stored(Callbacks(s, workflow, a)))
  }

  /** The storing region.  The empty workflow is not asked for a capability. */
  function Project(s: Store, workflow: string, a: Artifact, capability: Option<nat>, ask: Ask): (Store, Outcome) {
    if workflow != "" && (workflow !in s.guards || capability != Some(s.guards[workflow].capability)) then
      (s, Refused(InvalidCapability))
    else if workflow != "" && ask(s.guards[workflow].guard, a.id) != Allow then
      (s, Refused(NotAuthoritative))
    else Insert(s, workflow, a)
  }

  /** The sealed check that precedes an ungoverned publication, in a lock region of its own. */
  function Check(s: Store): Outcome {
    if s.guards != map[] then Refused(Sealed) else Done
  }

  function Bind(s: Store, workflow: string, seal: string, guard: nat): (Store, Outcome) {
    if workflow in s.seals then
      if s.seals[workflow] != seal then (s, Refused(SealConflict))
      else if workflow in s.guards then (s, Bound(s.guards[workflow].capability))
      else (s, Refused(SealConflict))
    else
      (s.(seals := s.seals[workflow := seal], guards := s.guards[workflow := Guarded(s.minted, guard)], minted := s.minted + 1),
       Bound(s.minted))
  }

  function Revoke(s: Store, id: string): (Store, Outcome) {
    if s.guards != map[] then (s, Refused(Sealed)) else (s.(revoked := s.revoked + {("", id)}), Done)
  }

  function RevokeGoverned(s: Store, workflow: string, id: string, capability: nat): (Store, Outcome) {
    if workflow !in s.guards || s.guards[workflow].capability != capability then (s, Refused(InvalidCapability))
    else (s.(revoked := s.revoked + {(workflow, id)}), Done)
  }

  function Watch(s: Store, key: string, callback: nat, workflow: Option<string>): (Store, Outcome) {
    if workflow.None? && s.guards != map[] then (s, Refused(WorkflowRequired))
    else
      var scope := if workflow.Some? then workflow.value else "";
      (s.(watchers := Appended(s.watchers, (scope, key), callback)), Done)
  }

  // ---------------------------------------------------------------------- reading

  predicate Visible(s: Store, key: Key, ask: Ask) {
    && key in s.artifacts && key !in s.revoked
    && (key.0 in s.guards ==> ask(s.guards[key.0].guard, key.1) == Allow)
  }

  /** The visible ones among the keys, in order. */
  function Shown(s: Store, keys: seq<Key>, ask: Ask): seq<Artifact> {
    if keys == [] then []
    else
      var front, last := Shown(s, keys[..|keys| - 1], ask), keys[|keys| - 1];
      if Visible(s, last, ask) then front + [s.artifacts[last]] else front
  }

  datatype Reading = Found(artifact: Artifact) | Missing | Withheld

  function Get(s: Store, id: string, workflow: Option<string>, ask: Ask): Reading {
    if workflow.Some? then GetAt(s, (workflow.value, id), ask)
    else GetAmong(s, Select((k: Key) => k.1, id, s.order), ask)
  }

  function GetAmong(s: Store, matches: seq<Key>, ask: Ask): Reading {
    if exists k :: k in matches && k.0 in s.guards then Withheld
    else if |matches| != 1 then Missing
    else GetAt(s, matches[0], ask)
  }

  function GetAt(s: Store, key: Key, ask: Ask): Reading {
    if Visible(s, key, ask) then Found(s.artifacts[key]) else Missing
  }

  /** What the first lock region of a read takes with it: the key to ask about and the artifact
      stored under it then. */
  datatype Fetched = Governed | NoSingleMatch | Candidate(key: Key, artifact: Option<Artifact>)

  function FetchAt(s: Store, key: Key): Fetched {
    Candidate(key, if key in s.artifacts then Some(s.artifacts[key]) else None)
  }

  function Fetch(s: Store, id: string, workflow: Option<string>): Fetched {
    if workflow.Some? then FetchAt(s, (workflow.value, id))
    else FetchAmong(s, Select((k: Key) => k.1, id, s.order))
  }

  function FetchAmong(s: Store, matches: seq<Key>): Fetched {
    if exists k :: k in matches && k.0 in s.guards then Governed
    else if |matches| != 1 then NoSingleMatch
    else FetchAt(s, matches[0])
  }

  /** The second one asks whether the key is visible now. */
  function Finish(s: Store, f: Fetched, ask: Ask): Reading {
    match f
    case Governed => Withheld
    case NoSingleMatch => Missing
    case Candidate(key, a) => if a.Some? && Visible(s, key, ask) then Found(a.value) else Missing
  }

  /** The two regions of the integrity check: artifact and digest first, visibility later. */
  predicate VerifyAcross(s: Store, t: Store, key: Key, ask: Ask) {
    && key in s.artifacts && key in s.digests && Visible(t, key, ask)
    && HashOf(s.artifacts[key]) == Some(s.digests[key])
  }

  // -------------------------------------------------------------------- invariant

  ghost predicate Distinct(keys: seq<Key>) {
    forall i, j :: 0 <= i < j < |keys| ==> keys[i] != keys[j]
  }

  /** The log lists exactly the stored keys, each once. */
  ghost predicate LogSound(order: seq<Key>, artifacts: map<Key, Artifact>) {
    Distinct(order) && forall k :: k in order <==> k in artifacts
  }

  /** An entry is stored under its own id, by a known workflow, with the digest of its content. */
  ghost predicate EntrySound(k: Key, a: Artifact, digests: map<Key, ContentHash>, names: set<string>) {
    && a.id == k.1 && WellFormed(a)
    && k in digests && HashOf(a) == Some(digests[k])
    && (k.0 == "" || k.0 in names)
  }

  ghost predicate EntriesSound(artifacts: map<Key, Artifact>, digests: map<Key, ContentHash>, names: set<string>) {
    && digests.Keys == artifacts.Keys
    && forall k :: k in artifacts ==> EntrySound(k, artifacts[k], digests, names)
  }

  /** Bound workflows are the sealed ones, each with a capability of its own. */
  ghost predicate BindingsSound(guards: map<string, Guarded>, seals: map<string, string>, minted: nat) {
    && guards.Keys == seals.Keys
    && (forall w :: w in guards ==> guards[w].capability < minted)
    && (forall w, v :: w in guards && v in guards && w != v ==> guards[w].capability != guards[v].capability)
  }

  ghost predicate Sound(s: Store) {
    && LogSound(s.order, s.artifacts)
    && EntriesSound(s.artifacts, s.digests, s.guards.Keys)
    && BindingsSound(s.guards, s.seals, s.minted)
  }

  lemma LogInsert(order: seq<Key>, artifacts: map<Key, Artifact>, key: Key, a: Artifact)
    requires LogSound(order, artifacts) && key !in artifacts
    ensures LogSound(order + [key], artifacts[key := a])
  {
    assert forall k :: k in order + [key] <==> k in order || k == key;
  }

  lemma EntriesInsert(artifacts: map<Key, Artifact>, digests: map<Key, ContentHash>, names: set<string>, key: Key, a: Artifact)
    requires EntriesSound(artifacts, digests, names)
    requires key.1 == a.id && WellFormed(a) && HashOf(a).Some? && (key.0 == "" || key.0 in names)
    ensures EntriesSound(artifacts[key := a], digests[key := HashOf(a).value], names)
  {
    var artifacts', digests' := artifacts[key := a], digests[key := HashOf(a).value];
    forall k | k in artifacts' ensures EntrySound(k, artifacts'[k], digests', names) {
      if k != key {
        assert EntrySound(k, artifacts[k], digests, names);
      }
    }
  }

  lemma EntriesMoreNames(artifacts: map<Key, Artifact>, digests: map<Key, ContentHash>, names: set<string>, more: set<string>)
    requires EntriesSound(artifacts, digests, names) && names <= more
    ensures EntriesSound(artifacts, digests, more)
  {
    forall k | k in artifacts ensures EntrySound(k, artifacts[k], digests, more) {
      assert EntrySound(k, artifacts[k], digests, names);
    }
  }

  lemma BindingsInsert(guards: map<string, Guarded>, seals: map<string, string>, minted: nat, w: string, seal: string, guard: nat)
    requires BindingsSound(guards, seals, minted) && w !in guards
    ensures BindingsSound(guards[w := Guarded(minted, guard)], seals[w := seal], minted + 1)
  {
  }

  lemma InsertIsSound(s: Store, workflow: string, a: Artifact)
    requires Sound(s) && WellFormed(a) && (workflow == "" || workflow in s.guards)
    ensures Sound(Insert(s, workflow, a).0)
  {
    var key := (workflow, a.id);
    if key !in s.artifacts && HashOf(a).Some? {
      LogInsert(s.order, s.artifacts, key, a);
      EntriesInsert(s.artifacts, s.digests, s.guards.Keys, key, a);
    }
  }

  lemma BindIsSound(s: Store, workflow: string, seal: string, guard: nat)
    requires Sound(s)
    ensures Sound(Bind(s, workflow, seal, guard).0)
  {
    if workflow !in s.seals {
      BindingsInsert(s.guards, s.seals, s.minted, workflow, seal, guard);
      EntriesMoreNames(s.artifacts, s.digests, s.guards.Keys, s.guards[workflow := Guarded(s.minted, guard)].Keys);
    }
  }

  // ------------------------------------------------------------------------- runs

  /** One lock region of some thread; an ungoverned publication is a check and a later store. */
  datatype Act =
    | CheckUnsealed(thread: nat)
    | StoreUngoverned(thread: nat, artifact: Artifact)
    | BindWorkflow(workflow: string, seal: string, guard: nat)
    | Publish(workflow: string, artifact: Artifact, capability: nat)
    | RevokeId(id: string)
    | RevokeAt(workflow: string, id: string, capability: nat)
    | AddWatcher(key: string, callback: nat, scope: Option<string>)

  datatype Step = Step(act: Act, ask: Ask)

  function Do(s: Store, step: Step): (Store, Outcome) {
    match step.act
    case CheckUnsealed(_) => (s, Check(s))
    case StoreUngoverned(_, a) => Project(s, "", a, None, step.ask)
    case BindWorkflow(w, seal, guard) => Bind(s, w, seal, guard)
    case Publish(w, a, capability) => Project(s, w, a, Some(capability), step.ask)
    case RevokeId(id) => Revoke(s, id)
    case RevokeAt(w, id, capability) => RevokeGoverned(s, w, id, capability)
    case AddWatcher(key, callback, scope) => Watch(s, key, callback, scope)
  }

  ghost predicate Publishable(step: Step) {
    (step.act.StoreUngoverned? || step.act.Publish?) ==> WellFormed(step.act.artifact)
  }

  /** The state after the first `n` steps. */
  ghost function After(run: seq<Step>, n: nat): Store
    requires n <= |run|
  {
    if n == 0 then EMPTY else Do(After(run, n - 1), run[n - 1]).0
  }

  ghost predicate Possible(run: seq<Step>) {
    forall i :: 0 <= i < |run| ==> Publishable(run[i])
  }

  lemma ProjectIsSound(s: Store, workflow: string, a: Artifact, capability: Option<nat>, ask: Ask)
    requires Sound(s) && WellFormed(a)
    ensures Sound(Project(s, workflow, a, capability, ask).0)
  {
    if workflow == "" || workflow in s.guards {
      InsertIsSound(s, workflow, a);
    }
  }

  /** Revocations and watchers are in none of the things that must agree. */
  lemma OthersAreSound(s: Store, revoked: set<Key>, watchers: map<Key, seq<nat>>)
    requires Sound(s)
    ensures Sound(s.(revoked := revoked, watchers := watchers))
  {
  }

  lemma StepIsSound(s: Store, step: Step)
    requires Sound(s) && Publishable(step)
    ensures Sound(Do(s, step).0)
  {
    match step.act
    case CheckUnsealed(_) =>
    case StoreUngoverned(_, a) => ProjectIsSound(s, "", a, None, step.ask);
    case Publish(w, a, capability) => ProjectIsSound(s, w, a, Some(capability), step.ask);
    case BindWorkflow(w, seal, guard) => BindIsSound(s, w, seal, guard);
    case _ => OthersAreSound(s, Do(s, step).0.revoked, Do(s, step).0.watchers);
  }

  lemma {:induction false} RunIsSound(run: seq<Step>, n: nat)
    requires n <= |run| && Possible(run)
    ensures Sound(After(run, n))
  {
    if n > 0 {
      RunIsSound(run, n - 1);
      StepIsSound(After(run, n - 1), run[n - 1]);
    }
  }

  lemma RunIsPaired(run: seq<Step>, n: nat)
    requires n <= |run| && Possible(run)
    ensures Paired(After(run, n))
  {
    RunIsSound(run, n);
  }

  ghost predicate Kept<K, V>(m: map<K, V>, n: map<K, V>) {
    forall k :: k in m ==> k in n && n[k] == m[k]
  }

  /** What no later step may take back. */
  ghost predicate Grows(s: Store, t: Store) {
    && s.order <= t.order && s.revoked <= t.revoked
    && Kept(s.artifacts, t.artifacts) && Kept(s.digests, t.digests)
    && Kept(s.guards, t.guards) && Kept(s.seals, t.seals)
  }

  /** The dictionaries that are filled together have the same keys. */
  ghost predicate Paired(s: Store) {
    s.digests.Keys == s.artifacts.Keys && s.guards.Keys == s.seals.Keys
  }

  lemma InsertGrows(s: Store, workflow: string, a: Artifact)
    requires Paired(s)
    ensures Grows(s, Insert(s, workflow, a).0)
    ensures Insert(s, workflow, a).1.Refused? ==> Insert(s, workflow, a).0 == s
  {
    var key := (workflow, a.id);
    if key !in s.artifacts && HashOf(a).Some? {
      assert key !in s.digests;
    }
  }

  lemma ProjectGrows(s: Store, workflow: string, a: Artifact, capability: Option<nat>, ask: Ask)
    requires Paired(s)
    ensures Grows(s, Project(s, workflow, a, capability, ask).0)
    ensures Project(s, workflow, a, capability, ask).1.Refused? ==> Project(s, workflow, a, capability, ask).0 == s
  {
    InsertGrows(s, workflow, a);
  }

  lemma BindGrows(s: Store, workflow: string, seal: string, guard: nat)
    requires Paired(s)
    ensures Grows(s, Bind(s, workflow, seal, guard).0)
    ensures Bind(s, workflow, seal, guard).1.Refused? ==> Bind(s, workflow, seal, guard).0 == s
  {
    if workflow !in s.seals {
      assert workflow !in s.guards;
    }
  }

  /** Every step keeps what was there, and a refused one changes nothing. */
  lemma StepGrows(s: Store, step: Step)
    requires Paired(s)
    ensures Grows(s, Do(s, step).0)
    ensures Do(s, step).1.Refused? ==> Do(s, step).0 == s
  {
    match step.act
    case CheckUnsealed(_) =>
    case StoreUngoverned(_, a) => ProjectGrows(s, "", a, None, step.ask);
    case Publish(w, a, capability) => ProjectGrows(s, w, a, Some(capability), step.ask);
    case BindWorkflow(w, seal, guard) => BindGrows(s, w, seal, guard);
    case RevokeId(_) =>
    case RevokeAt(_, _, _) =>
    case AddWatcher(_, _, _) =>
  }

  /** In every run the log, the stored artifacts and their digests, the revocations, the seals,
      the capabilities and the first guard of each workflow only ever grow. */
  lemma {:induction false} RunGrows(run: seq<Step>, m: nat, n: nat)
    requires m <= n <= |run| && Possible(run)
    ensures Grows(After(run, m), After(run, n))
    decreases n
  {
    if m < n {
      RunGrows(run, m, n - 1);
      RunIsPaired(run, n - 1);
      StepGrows(After(run, n - 1), run[n - 1]);
    }
  }

  /** Once revoked, an artifact is in no later answer, whatever the guards say. */
  lemma RevokedStaysHidden(run: seq<Step>, m: nat, n: nat, key: Key, ask: Ask)
    requires m <= n <= |run| && Possible(run) && key in After(run, m).revoked
    ensures !Visible(After(run, n), key, ask)
    ensures Get(After(run, n), key.1, Some(key.0), ask) == Missing
  {
    RunGrows(run, m, n);
  }

  // ----------------------------------------------------------------- unscoped get

  lemma {:induction false} SelectDistinct(keyOf: Key -> string, id: string, keys: seq<Key>)
    requires Distinct(keys)
    ensures Distinct(Select(keyOf, id, keys))
  {
    if keys != [] {
      var front, last := keys[..|keys| - 1], keys[|keys| - 1];
      SelectDistinct(keyOf, id, front);
      var out := Select(keyOf, id, front);
      forall i | 0 <= i < |out| ensures out[i] != last {
        assert out[i] in front;
      }
    }
  }

  lemma AtMostOneKey(keys: seq<Key>, only: Key)
    requires Distinct(keys) && forall k :: k in keys ==> k == only
    ensures |keys| <= 1 && (|keys| == 1 <==> only in keys) && (|keys| == 1 ==> keys[0] == only)
  {
    if keys != [] {
      var first, last := keys[0], keys[|keys| - 1];
      assert first in keys && last in keys;
    }
  }

  /** The keys stored under an id, all of the empty workflow when none is governed. */
  lemma MatchesOf(s: Store, id: string)
    requires Sound(s)
    ensures
      var matches := Select((k: Key) => k.1, id, s.order);
      && Distinct(matches)
      && (forall k :: k in matches <==> k in s.artifacts && k.1 == id)
      && (forall k :: k in matches && k.0 !in s.guards ==> k == ("", id))
  {
    var keyOf := (k: Key) => k.1;
    SelectDistinct(keyOf, id, s.order);
    forall k | k in s.artifacts && k.1 == id && k.0 !in s.guards ensures k == ("", id) {
      assert EntrySound(k, s.artifacts[k], s.digests, s.guards.Keys);
    }
  }

  lemma GetAmongMatches(s: Store, matches: seq<Key>, id: string, ask: Ask)
    requires Distinct(matches) && (forall k :: k in matches <==> k in s.artifacts && k.1 == id)
    requires forall k :: k in matches && k.0 !in s.guards ==> k == ("", id)
    ensures
      var governed := exists k :: k in s.artifacts && k.1 == id && k.0 in s.guards;
      GetAmong(s, matches, ask) == if governed then Withheld else GetAt(s, ("", id), ask)
  {
    if !exists k :: k in matches && k.0 in s.guards {
      AtMostOneKey(matches, ("", id));
    }
  }

  /** A read without a workflow is withheld exactly when a governed artifact has that id.
      Otherwise it answers as a read of the ungoverned one: two matches never happen. */
  lemma UnscopedGet(s: Store, id: string, ask: Ask)
    requires Sound(s)
    ensures
      var governed := exists k :: k in s.artifacts && k.1 == id && k.0 in s.guards;
      Get(s, id, None, ask) == if governed then Withheld else GetAt(s, ("", id), ask)
  {
    MatchesOf(s, id);
    GetAmongMatches(s, Select((k: Key) => k.1, id, s.order), id, ask);
  }

  // ------------------------------------------------------ reads in two lock regions

  /** Without anything in between, the two regions are one read. */
  lemma ReadInOneGo(s: Store, id: string, workflow: Option<string>, ask: Ask)
    ensures Finish(s, Fetch(s, id, workflow), ask) == Get(s, id, workflow, ask)
  {
  }

  ghost predicate AnyGoverned(s: Store, id: string) {
    exists k :: k in s.artifacts && k.1 == id && k.0 in s.guards
  }

  lemma FetchAmongMatches(s: Store, matches: seq<Key>, id: string)
    requires Distinct(matches) && (forall k :: k in matches <==> k in s.artifacts && k.1 == id)
    requires forall k :: k in matches && k.0 !in s.guards ==> k == ("", id)
    ensures
      FetchAmong(s, matches) ==
        if AnyGoverned(s, id) then Governed else if ("", id) in s.artifacts then FetchAt(s, ("", id)) else NoSingleMatch
  {
    if !exists k :: k in matches && k.0 in s.guards {
      AtMostOneKey(matches, ("", id));
    }
  }

  /** What the first region of an unscoped read selects. */
  lemma UnscopedFetch(s: Store, id: string)
    requires Sound(s)
    ensures
      Fetch(s, id, None) ==
        if AnyGoverned(s, id) then Governed else if ("", id) in s.artifacts then FetchAt(s, ("", id)) else NoSingleMatch
  {
    MatchesOf(s, id);
    FetchAmongMatches(s, Select((k: Key) => k.1, id, s.order), id);
  }

  /** A read that fetches after `m` steps and asks after `n` returns an artifact exactly when it
      was stored by the fetch and is visible at the question, and then it is the one stored
      under that key throughout.  Without a workflow the key is the ungoverned one, and the read
      is withheld exactly when a governed artifact had the id at the fetch. */
  lemma ReadAcross(run: seq<Step>, m: nat, n: nat, id: string, workflow: Option<string>, ask: Ask)
    requires m <= n <= |run| && Possible(run)
    ensures
      var s, t := After(run, m), After(run, n);
      var key := (if workflow.Some? then workflow.value else "", id);
      Finish(t, Fetch(s, id, workflow), ask) ==
        if workflow.None? && AnyGoverned(s, id) then Withheld
        else if key in s.artifacts && Visible(t, key, ask) then Found(t.artifacts[key])
        else Missing
  {
    RunIsSound(run, m);
    RunGrows(run, m, n);
    var key := (if workflow.Some? then workflow.value else "", id);
    FinishFetched(After(run, m), After(run, n), key, ask);
    if workflow.None? {
      UnscopedFetch(After(run, m), id);
    }
  }

  lemma FinishFetched(s: Store, t: Store, key: Key, ask: Ask)
    requires Kept(s.artifacts, t.artifacts)
    ensures Finish(t, FetchAt(s, key), ask) ==
      if key in s.artifacts && Visible(t, key, ask) then Found(t.artifacts[key]) else Missing
  {
  }

  /** A read in a workflow is atomic: it answers as one read at the question or, when the artifact
      was stored in between, as one read at the fetch. */
  lemma ScopedReadIsAtomic(run: seq<Step>, m: nat, n: nat, key: Key, ask: Ask)
    requires m <= n <= |run| && Possible(run)
    ensures
      var s, t := After(run, m), After(run, n);
      Finish(t, Fetch(s, key.1, Some(key.0)), ask) == Get(if key in s.artifacts then t else s, key.1, Some(key.0), ask)
  {
    ReadAcross(run, m, n, key.1, Some(key.0), ask);
  }

  /** After `k` steps one whole unscoped read would answer so. */
  ghost predicate AnswersAt(run: seq<Step>, k: nat, id: string, ask: Ask, reading: Reading) {
    k <= |run| && Get(After(run, k), id, None, ask) == reading
  }

  /** The read is one that happens at some moment from its fetch to its question. */
  ghost predicate AtomicBetween(run: seq<Step>, m: nat, n: nat, id: string, ask: Ask, reading: Reading) {
    exists k: nat :: m <= k <= n && AnswersAt(run, k, id, ask, reading)
  }

  /** Step `k` binds the empty workflow, and the ungoverned artifact of that id is not revoked. */
  ghost predicate GovernsUnrevoked(run: seq<Step>, k: nat, id: string) {
    k < |run| && "" !in After(run, k).guards && "" in After(run, k + 1).guards && ("", id) !in After(run, k).revoked
  }

  ghost predicate GovernedBetween(run: seq<Step>, m: nat, n: nat, id: string) {
    exists k: nat :: m <= k < n && GovernsUnrevoked(run, k, id)
  }

  /** Without the empty workflow bound, the ungoverned artifact is revoked only in an unsealed
      store, which stays unsealed. */
  lemma RevokedUnsealed(s: Store, step: Step, id: string)
    requires "" !in s.guards && ("", id) !in s.revoked && ("", id) in Do(s, step).0.revoked
    ensures Do(s, step).0.guards == map[]
  {
  }

  /** A stored ungoverned artifact is missed exactly when it is revoked and nothing under its id
      is governed. */
  lemma MissesIff(s: Store, id: string, ask: Ask)
    requires Sound(s) && ("", id) in s.artifacts
    ensures Get(s, id, None, ask) == Missing <==> !AnyGoverned(s, id) && ("", id) in s.revoked
  {
    UnscopedGet(s, id, ask);
    assert "" in s.guards ==> AnyGoverned(s, id) by {
      assert ("", id) in s.artifacts && ("", id).1 == id;
    }
  }

  lemma MissesAtIff(run: seq<Step>, m: nat, k: nat, id: string, ask: Ask)
    requires m <= k <= |run| && Possible(run) && ("", id) in After(run, m).artifacts
    ensures AnswersAt(run, k, id, ask, Missing) <==> !AnyGoverned(After(run, k), id) && ("", id) in After(run, k).revoked
  {
    RunIsSound(run, k);
    RunGrows(run, m, k);
    MissesIff(After(run, k), id, ask);
  }

  lemma {:induction false} Turns(holds: nat -> bool, m: nat, n: nat) returns (k: nat)
    requires m <= n && !holds(m) && holds(n)
    ensures m <= k < n && !holds(k) && holds(k + 1)
    decreases n
  {
    if holds(n - 1) {
      k := Turns(holds, m, n - 1);
    } else {
      k := n - 1;
    }
  }

  ghost predicate RevokedAfter(run: seq<Step>, k: nat, id: string) {
    k <= |run| && ("", id) in After(run, k).revoked
  }

  ghost predicate EmptyBoundAfter(run: seq<Step>, k: nat) {
    k <= |run| && "" in After(run, k).guards
  }

  /** The step that revokes the ungoverned artifact, without the empty workflow bound, leaves a
      store that misses it. */
  lemma RevokingStepMisses(run: seq<Step>, m: nat, k: nat, id: string, ask: Ask)
    requires m <= k < |run| && Possible(run) && ("", id) in After(run, m).artifacts
    requires !RevokedAfter(run, k, id) && RevokedAfter(run, k + 1, id) && !EmptyBoundAfter(run, k)
    ensures AnswersAt(run, k + 1, id, ask, Missing)
  {
    assert After(run, k + 1) == Do(After(run, k), run[k]).0;
    RevokedUnsealed(After(run, k), run[k], id);
    MissesAtIff(run, m, k + 1, id, ask);
  }

  lemma EmptyUnboundBefore(run: seq<Step>, k: nat, n: nat)
    requires k <= n <= |run| && Possible(run) && !EmptyBoundAfter(run, n)
    ensures !EmptyBoundAfter(run, k)
  {
    RunGrows(run, k, n);
  }

  lemma RevokedLater(run: seq<Step>, m: nat, n: nat, id: string) returns (k: nat)
    requires m <= n <= |run| && !RevokedAfter(run, m, id) && RevokedAfter(run, n, id)
    ensures m <= k < n && !RevokedAfter(run, k, id) && RevokedAfter(run, k + 1, id)
  {
    k := Turns((i: nat) => RevokedAfter(run, i, id), m, n);
  }

  /** Until the empty workflow is bound, a revoked artifact was missed when it was revoked. */
  lemma RevokedWasMissed(run: seq<Step>, m: nat, n: nat, id: string, ask: Ask) returns (k: nat)
    requires m <= n <= |run| && Possible(run)
    requires !AnyGoverned(After(run, m), id) && ("", id) in After(run, m).artifacts
    requires !EmptyBoundAfter(run, n) && RevokedAfter(run, n, id)
    ensures m <= k <= n && AnswersAt(run, k, id, ask, Missing)
  {
    if RevokedAfter(run, m, id) {
      k := m;
      MissesAtIff(run, m, m, id, ask);
    } else {
      var before := RevokedLater(run, m, n, id);
      k := before + 1;
      EmptyUnboundBefore(run, before, n);
      RevokingStepMisses(run, m, before, id, ask);
    }
  }

  /** A hidden artifact was missed at some moment, unless binding the empty workflow hid it. */
  lemma HiddenWasMissed(run: seq<Step>, m: nat, n: nat, id: string, ask: Ask)
    requires m <= n <= |run| && Possible(run)
    requires !AnyGoverned(After(run, m), id) && ("", id) in After(run, m).artifacts
    requires !Visible(After(run, n), ("", id), ask) && !GovernedBetween(run, m, n, id)
    ensures AtomicBetween(run, m, n, id, ask, Missing)
  {
    RunGrows(run, m, n);
    if EmptyBoundAfter(run, n) {
      assert !EmptyBoundAfter(run, m);
      var k := Turns((i: nat) => EmptyBoundAfter(run, i), m, n);
      assert !GovernsUnrevoked(run, k, id);
      var missed := RevokedWasMissed(run, m, k, id, ask);
    } else {
      var missed := RevokedWasMissed(run, m, n, id, ask);
    }
  }

  /** Before such a binding the artifact is not revoked, and from it on its id is governed. */
  lemma NeverMissed(run: seq<Step>, m: nat, b: nat, k: nat, id: string, ask: Ask)
    requires m <= b < |run| && m <= k <= |run| && Possible(run)
    requires ("", id) in After(run, m).artifacts && GovernsUnrevoked(run, b, id)
    ensures !AnswersAt(run, k, id, ask, Missing)
  {
    MissesAtIff(run, m, k, id, ask);
    RunGrows(run, m, k);
    if k <= b {
      RunGrows(run, k, b);
    } else {
      RunGrows(run, b + 1, k);
      assert ("", id) in After(run, k).artifacts && ("", id).1 == id;
    }
  }

  /** A read that does not miss answers as one read at its fetch. */
  lemma AnswersAtFetch(run: seq<Step>, m: nat, n: nat, id: string, ask: Ask)
    requires m <= n <= |run| && Possible(run)
    requires AnyGoverned(After(run, m), id) || ("", id) !in After(run, m).artifacts || Visible(After(run, n), ("", id), ask)
    ensures AnswersAt(run, m, id, ask, Finish(After(run, n), Fetch(After(run, m), id, None), ask))
  {
    var s, t := After(run, m), After(run, n);
    ReadAcross(run, m, n, id, None, ask);
    RunIsSound(run, m);
    RunGrows(run, m, n);
    UnscopedGet(s, id, ask);
  }

  /** A read without a workflow answers as one read at some moment from its fetch to its question,
      except exactly when it found an ungoverned artifact that is hidden at the question, and
      the empty workflow was bound in between while the artifact was not revoked. */
  lemma UnscopedReadIsAtomicIff(run: seq<Step>, m: nat, n: nat, id: string, ask: Ask)
    requires m <= n <= |run| && Possible(run)
    ensures
      var s, t := After(run, m), After(run, n);
      AtomicBetween(run, m, n, id, ask, Finish(t, Fetch(s, id, None), ask)) <==>
        !(&& !AnyGoverned(s, id) && ("", id) in s.artifacts && !Visible(t, ("", id), ask)
          && GovernedBetween(run, m, n, id))
  {
    var s, t := After(run, m), After(run, n);
    if AnyGoverned(s, id) || ("", id) !in s.artifacts || Visible(t, ("", id), ask) {
      AnswersAtFetch(run, m, n, id, ask);
    } else {
      ReadAcross(run, m, n, id, None, ask);
      if b: nat :| m <= b < n && GovernsUnrevoked(run, b, id) {
        forall k: nat | m <= k <= n ensures !AnswersAt(run, k, id, ask, Missing) {
          NeverMissed(run, m, b, k, id, ask);
        }
      } else {
        HiddenWasMissed(run, m, n, id, ask);
      }
    }
  }

  lemma NotGovernedBetween(run: seq<Step>, m: nat, n: nat, id: string)
    requires m <= n <= |run| && Possible(run) && "" !in After(run, n).guards
    ensures !GovernedBetween(run, m, n, id)
  {
    forall k: nat | m <= k < n ensures !GovernsUnrevoked(run, k, id) {
      EmptyUnboundBefore(run, k + 1, n);
    }
  }

  /** So it is atomic as long as only workflows with a name are bound. */
  lemma NamedWorkflowsNeverTear(run: seq<Step>, m: nat, n: nat, id: string, ask: Ask)
    requires m <= n <= |run| && Possible(run) && "" !in After(run, n).guards
    ensures AtomicBetween(run, m, n, id, ask, Finish(After(run, n), Fetch(After(run, m), id, None), ask))
  {
    NotGovernedBetween(run, m, n, id);
    UnscopedReadIsAtomicIff(run, m, n, id, ask);
  }

  /** In every run an integrity check succeeds exactly when the artifact was stored by its first
      region and is visible at its second: a visible artifact always matches the digest sealed
      when it was published. */
  lemma VerifyAcrossIff(run: seq<Step>, m: nat, n: nat, key: Key, ask: Ask)
    requires m <= n <= |run| && Possible(run)
    ensures VerifyAcross(After(run, m), After(run, n), key, ask) <==> key in After(run, m).artifacts && Visible(After(run, n), key, ask)
  {
    RunIsSound(run, m);
    var s := After(run, m);
    if key in s.artifacts {
      assert EntrySound(key, s.artifacts[key], s.digests, s.guards.Keys);
    }
  }

  /** An artifact put in the place of a visible one, whatever else it says, passes the check
      exactly when it is equal to it. */
  lemma TamperingIsDetected(run: seq<Step>, n: nat, key: Key, b: Artifact, ask: Ask)
    requires n <= |run| && Possible(run) && Visible(After(run, n), key, ask) && WellFormed(b)
    ensures
      var s := After(run, n);
      var tampered := s.(artifacts := s.artifacts[key := b]);
      VerifyAcross(tampered, tampered, key, ask) <==> b == s.artifacts[key]
  {
    RunIsSound(run, n);
    var s := After(run, n);
    assert EntrySound(key, s.artifacts[key], s.digests, s.guards.Keys);
    HashIsInjective(s.artifacts[key], b);
  }

  /** In every run a key passes the integrity check in one go exactly when it is visible. */
  lemma VisibleIsIntact(run: seq<Step>, n: nat, key: Key, ask: Ask)
    requires n <= |run| && Possible(run)
    ensures VerifyAcross(After(run, n), After(run, n), key, ask) <==> Visible(After(run, n), key, ask)
  {
    VerifyAcrossIff(run, n, n, key, ask);
  }

  /** An ungoverned artifact is stored, and then the empty workflow is bound. */
  function Governing(a: Artifact, ask: Ask): seq<Step> {
    [Step(StoreUngoverned(0, a), ask), Step(BindWorkflow("", "s", 0), ask)]
  }

  lemma GoverningStates(a: Artifact, ask: Ask)
    requires WellFormed(a) && HashOf(a).Some?
    ensures
      var run := Governing(a, ask);
      var s, t := After(run, 1), After(run, 2);
      && Possible(run)
      && s.artifacts == map[("", a.id) := a] && s.revoked == {} && s.guards == map[]
      && t == s.(seals := map["" := "s"], guards := map["" := Guarded(0, 0)], minted := 1)
  {
    var run := Governing(a, ask);
    assert After(run, 0) == EMPTY;
    assert After(run, 1) == Do(EMPTY, run[0]).0;
    assert After(run, 2) == Do(After(run, 1), run[1]).0;
  }

  lemma GovernedIsWithheld(s: Store, key: Key, ask: Ask)
    requires Sound(s) && key in s.artifacts && key.0 in s.guards
    ensures Get(s, key.1, None, ask) == Withheld
  {
    UnscopedGet(s, key.1, ask);
  }

  lemma UngovernedIsFetched(s: Store, a: Artifact)
    requires Sound(s) && s.artifacts == map[("", a.id) := a] && s.guards == map[]
    ensures Fetch(s, a.id, None) == Candidate(("", a.id), Some(a))
  {
    UnscopedFetch(s, a.id);
    assert ("", a.id) in s.artifacts;
  }

  /** The exception happens: a read that fetches the artifact before the binding and asks the
      denying guard after it misses, although a read before finds the artifact, a read after is
      withheld, and no moment in between answers as it does. */
  lemma UnscopedReadCanTear(a: Artifact, ask: Ask)
    requires WellFormed(a) && HashOf(a).Some? && ask(0, a.id) != Allow
    ensures
      var run := Governing(a, ask);
      var s, t := After(run, 1), After(run, 2);
      && Possible(run)
      && Get(s, a.id, None, ask) == Found(a) && Get(t, a.id, None, ask) == Withheld
      && Finish(t, Fetch(s, a.id, None), ask) == Missing
      && !AtomicBetween(run, 1, 2, a.id, ask, Missing)
  {
    var run := Governing(a, ask);
    GoverningStates(a, ask);
    RunIsSound(run, 1);
    RunIsSound(run, 2);
    OnlyUngoverned(After(run, 1), a, ask);
    UngovernedIsFetched(After(run, 1), a);
    GovernedIsWithheld(After(run, 2), ("", a.id), ask);
    assert !AnswersAt(run, 1, a.id, ask, Missing) && !AnswersAt(run, 2, a.id, ask, Missing);
  }

  // ---------------------------------------------------------------------- queries

  /** The reading of a stored key that an index files it under. */
  function FiledUnder(artifacts: map<Key, Artifact>, f: Artifact -> string): Key -> Key {
    (k: Key) => (k.0, if k in artifacts then f(artifacts[k]) else "")
  }

  lemma {:induction false} ShownMembers(s: Store, keys: seq<Key>, ask: Ask, a: Artifact)
    ensures a in Shown(s, keys, ask) <==> exists k :: k in keys && Visible(s, k, ask) && s.artifacts[k] == a
  {
    if keys != [] {
      var front, last := keys[..|keys| - 1], keys[|keys| - 1];
      assert keys == front + [last];
      ShownMembers(s, front, ask, a);
    }
  }

  /** Answers come in the order of the keys asked for. */
  lemma {:induction false} ShownConcat(s: Store, a: seq<Key>, b: seq<Key>, ask: Ask)
    ensures Shown(s, a + b, ask) == Shown(s, a, ask) + Shown(s, b, ask)
    decreases |b|
  {
    if b == [] {
      assert a + b == a;
    } else {
      ShownConcat(s, a, b[..|b| - 1], ask);
      assert (a + b)[..|a + b| - 1] == a + b[..|b| - 1];
    }
  }

  /** A query by task, domain or agent answers with exactly the stored, unrevoked and allowed
      artifacts of the workflow that have the value asked for. */
  lemma QueryIsExact(s: Store, f: Artifact -> string, workflow: string, value: string, ask: Ask, a: Artifact)
    requires Sound(s)
    ensures
      a in Shown(s, Select(FiledUnder(s.artifacts, f), (workflow, value), s.order), ask) <==>
      f(a) == value && Visible(s, (workflow, a.id), ask) && s.artifacts[(workflow, a.id)] == a
  {
    var keys := Select(FiledUnder(s.artifacts, f), (workflow, value), s.order);
    ShownMembers(s, keys, ask, a);
    if k :| k in keys && Visible(s, k, ask) && s.artifacts[k] == a {
      assert EntrySound(k, s.artifacts[k], s.digests, s.guards.Keys);
      assert k == (workflow, a.id);
    }
    if Visible(s, (workflow, a.id), ask) && s.artifacts[(workflow, a.id)] == a && f(a) == value {
      assert (workflow, a.id) in keys;
    }
  }

  lemma QueryShows(s: Store, f: Artifact -> string, workflow: string, value: string, ask: Ask)
    requires Sound(s)
    ensures
      forall a :: a in Shown(s, Select(FiledUnder(s.artifacts, f), (workflow, value), s.order), ask) <==>
        f(a) == value && Visible(s, (workflow, a.id), ask) && s.artifacts[(workflow, a.id)] == a
  {
    forall a ensures a in Shown(s, Select(FiledUnder(s.artifacts, f), (workflow, value), s.order), ask) <==>
      f(a) == value && Visible(s, (workflow, a.id), ask) && s.artifacts[(workflow, a.id)] == a
    {
      QueryIsExact(s, f, workflow, value, ask, a);
    }
  }

  ghost function VisibleAmong(s: Store, keys: seq<Key>, ask: Ask): set<Key> {
    set k | k in keys && Visible(s, k, ask)
  }

  lemma {:induction false} ShownCounts(s: Store, keys: seq<Key>, ask: Ask)
    requires Distinct(keys)
    ensures |Shown(s, keys, ask)| == |VisibleAmong(s, keys, ask)|
  {
    if keys != [] {
      var front, last := keys[..|keys| - 1], keys[|keys| - 1];
      assert keys == front + [last];
      ShownCounts(s, front, ask);
      assert last !in front;
      assert VisibleAmong(s, keys, ask) == VisibleAmong(s, front, ask) + (if Visible(s, last, ask) then {last} else {});
    }
  }

  // ------------------------------------------------------------------ revocations

  /** The key a revocation is about. */
  function RevokedKey(act: Act): Key
    requires act.RevokeId? || act.RevokeAt?
  {
    if act.RevokeId? then ("", act.id) else (act.workflow, act.id)
  }

  /** A revocation is accepted exactly in an unsealed store, or with the workflow's capability,
      and then adds its key and changes nothing else. */
  lemma RevocationIff(s: Store, step: Step)
    requires step.act.RevokeId? || step.act.RevokeAt?
    ensures
      var (after, outcome) := Do(s, step);
      && (outcome == Done <==>
            if step.act.RevokeId? then s.guards == map[]
            else step.act.workflow in s.guards && step.act.capability == s.guards[step.act.workflow].capability)
      && after == if outcome == Done then s.(revoked := s.revoked + {RevokedKey(step.act)}) else s
  {
  }

  /** Step `i` is an accepted revocation of the key. */
  ghost predicate Revokes(run: seq<Step>, i: nat, key: Key) {
    && i < |run| && (run[i].act.RevokeId? || run[i].act.RevokeAt?)
    && RevokedKey(run[i].act) == key && Do(After(run, i), run[i]).1 == Done
  }

  lemma OnlyRevocationsRevoke(s: Store, step: Step)
    requires !step.act.RevokeId? && !step.act.RevokeAt?
    ensures Do(s, step).0.revoked == s.revoked
  {
  }

  /** In every run the revoked keys are exactly those of the accepted revocations. */
  lemma {:induction false} RevokedIff(run: seq<Step>, n: nat, key: Key)
    requires n <= |run|
    ensures key in After(run, n).revoked <==> exists i: nat :: i < n && Revokes(run, i, key)
  {
    if n > 0 {
      var s, step := After(run, n - 1), run[n - 1];
      RevokedIff(run, n - 1, key);
      if step.act.RevokeId? || step.act.RevokeAt? {
        RevocationIff(s, step);
        if key in After(run, n).revoked && key !in s.revoked {
          assert Revokes(run, n - 1, key);
        }
      } else {
        OnlyRevocationsRevoke(s, step);
      }
    }
  }

  /** From an accepted revocation on, at every moment, no read returns the artifact: not by its
      key, not without a workflow when it is ungoverned, and not by task, domain or agent. */
  lemma RevocationHides(run: seq<Step>, i: nat, n: nat, key: Key, ask: Ask, f: Artifact -> string, value: string, a: Artifact)
    requires i < n <= |run| && Possible(run) && Revokes(run, i, key) && a.id == key.1
    ensures
      var s := After(run, n);
      && !Visible(s, key, ask) && Get(s, key.1, Some(key.0), ask) == Missing
      && (key.0 == "" ==> !Get(s, key.1, None, ask).Found?)
      && a !in Shown(s, Select(FiledUnder(s.artifacts, f), (key.0, value), s.order), ask)
  {
    RevokedIff(run, n, key);
    RevokedStaysHidden(run, n, n, key, ask);
    RunIsSound(run, n);
    UnscopedGet(After(run, n), key.1, ask);
    QueryIsExact(After(run, n), f, key.0, value, ask, a);
  }

  // ----------------------------------------------------------- what a reader can see

  /** Step `i` stored this artifact under the key. */
  ghost predicate Stores(run: seq<Step>, i: nat, key: Key, a: Artifact) {
    && i < |run| && Do(After(run, i), run[i]).1.Stored?
    && (run[i].act.StoreUngoverned? || run[i].act.Publish?) && run[i].act.artifact == a
    && key == (if run[i].act.Publish? then run[i].act.workflow else "", a.id)
  }

  lemma StoreStep(s: Store, step: Step, key: Key)
    requires key !in s.artifacts
    ensures
      var (after, outcome) := Do(s, step);
      && (key in after.artifacts <==>
            && outcome.Stored? && (step.act.StoreUngoverned? || step.act.Publish?)
            && key == (if step.act.Publish? then step.act.workflow else "", step.act.artifact.id))
      && (key in after.artifacts ==> after.artifacts[key] == step.act.artifact)
  {
  }

  lemma StoredKeyIsRefused(s: Store, step: Step, key: Key)
    requires key in s.artifacts && (step.act.StoreUngoverned? || step.act.Publish?)
    requires key == (if step.act.Publish? then step.act.workflow else "", step.act.artifact.id)
    ensures !Do(s, step).1.Stored?
  {
  }

  /** In every run what is stored under a key is what one step stored there. */
  lemma {:induction false} ArtifactIff(run: seq<Step>, n: nat, key: Key, a: Artifact)
    requires n <= |run| && Possible(run)
    ensures key in After(run, n).artifacts && After(run, n).artifacts[key] == a <==> exists i: nat :: i < n && Stores(run, i, key, a)
  {
    if n > 0 {
      var s, step := After(run, n - 1), run[n - 1];
      ArtifactIff(run, n - 1, key, a);
      RunIsPaired(run, n - 1);
      StepGrows(s, step);
      if key in s.artifacts {
        if Stores(run, n - 1, key, a) {
          StoredKeyIsRefused(s, step, key);
          assert false;
        }
      } else {
        StoreStep(s, step, key);
        assert Stores(run, n - 1, key, a) <==> key in After(run, n).artifacts && After(run, n).artifacts[key] == a;
      }
    }
  }

  /** Step `i` is the first binding of the workflow. */
  ghost predicate FirstBinds(run: seq<Step>, i: nat, workflow: string) {
    i < |run| && run[i].act.BindWorkflow? && run[i].act.workflow == workflow && workflow !in After(run, i).guards
  }

  lemma BindStep(s: Store, step: Step, workflow: string)
    requires Paired(s) && workflow !in s.guards
    ensures workflow in Do(s, step).0.guards <==> step.act.BindWorkflow? && step.act.workflow == workflow
    ensures workflow in Do(s, step).0.guards ==> Do(s, step).0.guards[workflow].guard == step.act.guard
  {
  }

  /** In every run the guard of a workflow is the one its first binding named. */
  lemma {:induction false} GuardIff(run: seq<Step>, n: nat, workflow: string, guard: nat)
    requires n <= |run| && Possible(run)
    ensures
      workflow in After(run, n).guards && After(run, n).guards[workflow].guard == guard <==>
      exists i: nat :: i < n && FirstBinds(run, i, workflow) && run[i].act.guard == guard
  {
    if n > 0 {
      var s, step := After(run, n - 1), run[n - 1];
      GuardIff(run, n - 1, workflow, guard);
      RunIsPaired(run, n - 1);
      StepGrows(s, step);
      if workflow !in s.guards {
        BindStep(s, step, workflow);
        assert FirstBinds(run, n - 1, workflow) <==> workflow in After(run, n).guards;
      }
    }
  }

  /** What a reader can see, from the history of the run alone: a read in a workflow returns an
      artifact exactly when some step stored it under that key, no accepted step revoked the
      key, and the guard that the workflow was first bound to, if it was bound, allows it.  A
      guard that raises does not. */
  lemma VisibleIff(run: seq<Step>, n: nat, key: Key, ask: Ask, a: Artifact)
    requires n <= |run| && Possible(run)
    ensures
      Get(After(run, n), key.1, Some(key.0), ask) == Found(a) <==>
        && (exists i: nat :: i < n && Stores(run, i, key, a))
        && !(exists i: nat :: i < n && Revokes(run, i, key))
        && (forall i: nat :: i < n && FirstBinds(run, i, key.0) ==> ask(run[i].act.guard, key.1) == Allow)
  {
    ArtifactIff(run, n, key, a);
    RevokedIff(run, n, key);
    GuardsAllow(run, n, key, ask);
  }

  lemma GuardsAllow(run: seq<Step>, n: nat, key: Key, ask: Ask)
    requires n <= |run| && Possible(run)
    ensures
      var s := After(run, n);
      (key.0 in s.guards ==> ask(s.guards[key.0].guard, key.1) == Allow) <==>
      forall i: nat :: i < n && FirstBinds(run, i, key.0) ==> ask(run[i].act.guard, key.1) == Allow
  {
    var s := After(run, n);
    forall i: nat | i < n && FirstBinds(run, i, key.0)
      ensures key.0 in s.guards && s.guards[key.0].guard == run[i].act.guard
    {
      GuardIff(run, n, key.0, run[i].act.guard);
    }
    if key.0 in s.guards {
      GuardIff(run, n, key.0, s.guards[key.0].guard);
    }
  }

  // ----------------------------------------------------------- ports and publications

  /** A publication is stored exactly when the workflow is the empty one or its capability is
      presented and its guard allows, the key is new, and the artifact has a canonical form. */
  lemma StoredIff(s: Store, workflow: string, a: Artifact, capability: Option<nat>, ask: Ask)
    ensures
      Project(s, workflow, a, capability, ask).1.Stored? <==>
        && (|| workflow == ""
            || (&& workflow in s.guards && capability == Some(s.guards[workflow].capability)
                && ask(s.guards[workflow].guard, a.id) == Allow))
        && (workflow, a.id) !in s.artifacts && a.timestamp.Finite?
  {
  }

  /** The callbacks that accepted registrations added for the scope and key, in order. */
  ghost function Added(run: seq<Step>, n: nat, key: Key): seq<nat>
    requires n <= |run|
  {
    if n == 0 then []
    else
      var step := run[n - 1];
      var adds := && step.act.AddWatcher? && Do(After(run, n - 1), step).1 == Done
                  && (if step.act.scope.Some? then step.act.scope.value else "", step.act.key) == key;
      Added(run, n - 1, key) + if adds then [step.act.callback] else []
  }

  lemma WatchStep(s: Store, step: Step, key: Key)
    ensures
      var adds := && step.act.AddWatcher? && (step.act.scope.Some? || s.guards == map[])
                  && (if step.act.scope.Some? then step.act.scope.value else "", step.act.key) == key;
      Lookup(Do(s, step).0.watchers, key) == Lookup(s.watchers, key) + if adds then [step.act.callback] else []
  {
    if !step.act.AddWatcher? {
      assert Do(s, step).0.watchers == s.watchers;
    }
  }

  lemma {:induction false} WatchersAreAdded(run: seq<Step>, n: nat, key: Key)
    requires n <= |run|
    ensures Lookup(After(run, n).watchers, key) == Added(run, n, key)
  {
    if n > 0 {
      WatchersAreAdded(run, n - 1, key);
      WatchStep(After(run, n - 1), run[n - 1], key);
    }
  }

  /** The capability that a binding hands out is the one its workflow accepts ever after, for
      revoking and for publishing.  A publication with it that the first guard allows, under a
      new id and with a canonical form, is stored, and calls exactly the watchers added for
      its task and then those added for its domain, each in the order they were added. */
  lemma BoundPortWorks(run: seq<Step>, i: nat, n: nat, a: Artifact, ask: Ask)
    requires i < n <= |run| && Possible(run)
    requires run[i].act.BindWorkflow? && Do(After(run, i), run[i]).1.Bound?
    ensures
      var s, w, c := After(run, n), run[i].act.workflow, Do(After(run, i), run[i]).1.capability;
      && w in s.guards && s.guards[w].capability == c
      && (w !in After(run, i).guards ==> s.guards[w].guard == run[i].act.guard)
      && RevokeGoverned(s, w, a.id, c).1 == Done
      && (ask(s.guards[w].guard, a.id) == Allow && (w, a.id) !in s.artifacts && a.timestamp.Finite? ==>
            Project(s, w, a, Some(c), ask).1 == Stored(Added(run, n, (w, a.task)) + Added(run, n, (w, a.domain))))
  {
    RunIsPaired(run, i);
    BoundHolds(After(run, i), run[i]);
    assert After(run, i + 1) == Do(After(run, i), run[i]).0;
    RunGrows(run, i + 1, n);
    WatchersAreAdded(run, n, (run[i].act.workflow, a.task));
    WatchersAreAdded(run, n, (run[i].act.workflow, a.domain));
  }

  /** A binding is refused exactly when the workflow is sealed under another id. */
  lemma BindIff(s: Store, workflow: string, seal: string, guard: nat)
    requires Paired(s)
    ensures Bind(s, workflow, seal, guard).1.Bound? <==> (workflow in s.seals ==> s.seals[workflow] == seal)
    ensures workflow in Bind(s, workflow, seal, guard).0.seals
  {
  }

  lemma BoundHolds(s: Store, step: Step)
    requires Paired(s) && step.act.BindWorkflow? && Do(s, step).1.Bound?
    ensures
      var (after, w) := (Do(s, step).0, step.act.workflow);
      && w in after.guards && after.guards[w].capability == Do(s, step).1.capability
      && (w !in s.guards ==> after.guards[w].guard == step.act.guard)
  {
  }

  // ------------------------------------------------------------------ governed writes

  /** A port cannot revoke in another workflow, now or later in the run, and its capability is
      refused for publishing there exactly when that workflow has a name. */
  lemma PortIsConfined(run: seq<Step>, m: nat, n: nat, own: string, other: string, a: Artifact, ask: Ask)
    requires m <= n <= |run| && Possible(run) && own in After(run, m).guards && other != own
    ensures
      var s, capability := After(run, n), After(run, m).guards[own].capability;
      && RevokeGoverned(s, other, a.id, capability) == (s, Refused(InvalidCapability))
      && (Project(s, other, a, Some(capability), ask) == (s, Refused(InvalidCapability)) <==> other != "")
  {
    RunGrows(run, m, n);
    RunIsSound(run, n);
  }

  /** The step that stored a governed artifact held the workflow's capability and its guard
      vouched for the artifact. */
  ghost predicate Admits(run: seq<Step>, i: nat, key: Key, s: Store)
  {
    && i < |run| && key in s.artifacts && key.0 in s.guards
    && run[i].act == Publish(key.0, s.artifacts[key], s.guards[key.0].capability)
    && run[i].ask(s.guards[key.0].guard, key.1) == Allow
  }

  /** The step that adds a key of a named workflow is that workflow's publication. */
  lemma AddedByPort(s: Store, step: Step, key: Key)
    requires key.0 != "" && key !in s.artifacts && key in Do(s, step).0.artifacts
    ensures key.0 in s.guards && Do(s, step).0.guards == s.guards
    ensures step.act == Publish(key.0, Do(s, step).0.artifacts[key], s.guards[key.0].capability)
    ensures step.ask(s.guards[key.0].guard, key.1) == Allow
  {
    match step.act
    case Publish(w, a, capability) =>
      assert key == (w, a.id);
    case _ =>
  }

  /** In every run each artifact of a named workflow was published by that workflow's own port at
      a moment when its guard allowed it. */
  lemma {:induction false} GovernedWereVouchedFor(run: seq<Step>, n: nat, key: Key)
    requires n <= |run| && Possible(run) && key.0 != "" && key in After(run, n).artifacts
    ensures key.0 in After(run, n).guards
    ensures exists i: nat :: i < n && Admits(run, i, key, After(run, n))
  {
    var s, t := After(run, n - 1), After(run, n);
    RunIsPaired(run, n - 1);
    StepGrows(s, run[n - 1]);
    if key in s.artifacts {
      GovernedWereVouchedFor(run, n - 1, key);
      var i: nat :| i < n - 1 && Admits(run, i, key, s);
      assert Admits(run, i, key, t);
    } else {
      AddedByPort(s, run[n - 1], key);
      assert Admits(run, n - 1, key, t);
    }
  }

  /** The empty workflow is the exception: bound or not, publishing under it asks nobody. */
  lemma EmptyWorkflowIsNotVouchedFor(a: Artifact, capability: nat)
    requires WellFormed(a) && HashOf(a).Some?
    ensures
      var deny: Ask := (g, id) => Deny;
      var run := [Step(BindWorkflow("", "s", 0), deny), Step(Publish("", a, capability), deny)];
      && Possible(run) && ("", a.id) in After(run, 2).artifacts
      && !exists i: nat :: i < 2 && Admits(run, i, ("", a.id), After(run, 2))
  {
    var deny: Ask := (g, id) => Deny;
    var run := [Step(BindWorkflow("", "s", 0), deny), Step(Publish("", a, capability), deny)];
    assert After(run, 0) == EMPTY;
    assert After(run, 1) == EMPTY.(seals := map["" := "s"], guards := map["" := Guarded(0, 0)], minted := 1);
    assert After(run, 2) == Insert(After(run, 1), "", a).0;
  }

  // ------------------------------------------------------------- publication and seal

  ghost predicate Binds(step: Step) {
    step.act.BindWorkflow?
  }

  lemma SealStep(s: Store, step: Step)
    requires Paired(s)
    ensures Do(s, step).0.guards != map[] <==> s.guards != map[] || Binds(step)
  {
    match step.act
    case BindWorkflow(w, seal, guard) =>
      assert w in Do(s, step).0.guards;
    case _ =>
      assert Do(s, step).0.guards == s.guards;
  }

  /** The store is sealed exactly from the first binding on. */
  lemma {:induction false} SealedIffBound(run: seq<Step>, n: nat)
    requires n <= |run| && Possible(run)
    ensures After(run, n).guards != map[] <==> exists i :: 0 <= i < n && Binds(run[i])
  {
    if n > 0 {
      SealedIffBound(run, n - 1);
      RunIsPaired(run, n - 1);
      SealStep(After(run, n - 1), run[n - 1]);
    }
  }

  /** The check at `c` and the store at `i` belong to one ungoverned publication. */
  ghost predicate Publication(run: seq<Step>, c: nat, i: nat) {
    && c < i < |run| && run[c].act.CheckUnsealed? && run[i].act.StoreUngoverned?
    && run[c].act.thread == run[i].act.thread && Check(After(run, c)) == Done
  }

  /** An ungoverned publication whose check passed reaches a sealed store exactly when some
      workflow is bound between its check and its store. */
  lemma LatePublicationIff(run: seq<Step>, c: nat, i: nat)
    requires Possible(run) && Publication(run, c, i)
    ensures After(run, i).guards != map[] <==> exists j :: c < j < i && Binds(run[j])
  {
    SealedIffBound(run, c);
    SealedIffBound(run, i);
    if After(run, i).guards != map[] {
      var j :| 0 <= j < i && Binds(run[j]);
      assert j != c && !(j < c);
    }
  }

  /** Such an interleaving stores an ungoverned artifact in a sealed store, where an unscoped
      read finds it and no revocation can reach it any more. */
  lemma SealCanBeOvertaken(a: Artifact, ask: Ask)
    requires WellFormed(a) && HashOf(a).Some?
    ensures
      var run := Overtaking(a, ask);
      var s := After(run, 3);
      && Possible(run) && Publication(run, 0, 2)
      && Check(After(run, 2)) == Refused(Sealed)
      && Do(After(run, 2), run[2]).1.Stored?
      && Get(s, a.id, None, ask) == Found(a)
      && Revoke(s, a.id) == (s, Refused(Sealed))
  {
    OvertakingStates(a, ask);
    OvertakingIsPublication(a, ask);
    RunIsSound(Overtaking(a, ask), 3);
    OnlyUngoverned(After(Overtaking(a, ask), 3), a, ask);
  }

  lemma OvertakingIsPublication(a: Artifact, ask: Ask)
    requires WellFormed(a) && HashOf(a).Some?
    ensures Publication(Overtaking(a, ask), 0, 2)
  {
    assert After(Overtaking(a, ask), 0) == EMPTY;
  }

  /** A store that holds nothing but one ungoverned artifact. */
  lemma OnlyUngoverned(s: Store, a: Artifact, ask: Ask)
    requires Sound(s) && s.artifacts == map[("", a.id) := a] && s.revoked == {} && "" !in s.guards
    ensures Get(s, a.id, None, ask) == Found(a)
  {
    UnscopedGet(s, a.id, ask);
    assert ("", a.id) in s.artifacts;
  }

  /** One thread checks, a workflow is bound, the thread stores. */
  function Overtaking(a: Artifact, ask: Ask): seq<Step> {
    [Step(CheckUnsealed(0), ask), Step(BindWorkflow("w", "s", 0), ask), Step(StoreUngoverned(0, a), ask)]
  }

  lemma OvertakingStates(a: Artifact, ask: Ask)
    requires WellFormed(a) && HashOf(a).Some?
    ensures
      var run := Overtaking(a, ask);
      var bound := EMPTY.(seals := map["w" := "s"], guards := map["w" := Guarded(0, 0)], minted := 1);
      && Possible(run) && After(run, 0) == EMPTY && After(run, 2) == bound && "w" in bound.guards
      && After(run, 3) == Insert(bound, "", a).0
      && After(run, 3).artifacts == map[("", a.id) := a] && After(run, 3).revoked == {}
      && After(run, 3).guards == bound.guards && "" !in bound.guards
      && Do(bound, run[2]).1.Stored?
  {
    var run := Overtaking(a, ask);
    assert After(run, 0) == EMPTY;
    assert After(run, 1) == Do(EMPTY, run[0]).0 == EMPTY;
    assert After(run, 2) == Do(EMPTY, run[1]).0;
    assert After(run, 3) == Do(After(run, 2), run[2]).0;
  }

  lemma SealedRevokeStep(s: Store, step: Step, id: string)
    requires s.guards != map[] && "" !in s.guards
    ensures ("", id) in Do(s, step).0.revoked <==> ("", id) in s.revoked
  {
    match step.act
    case RevokeAt(w, other, capability) =>
      assert w == "" ==> Do(s, step).0 == s;
    case _ =>
      assert Do(s, step).0.revoked == s.revoked;
  }

  /** In a sealed store an ungoverned key is revoked only by a port bound to the empty workflow. */
  lemma {:induction false} SealedUngovernedCannotBeRevoked(run: seq<Step>, m: nat, n: nat, id: string)
    requires m <= n <= |run| && Possible(run)
    requires After(run, m).guards != map[] && "" !in After(run, n).guards
    ensures ("", id) in After(run, n).revoked <==> ("", id) in After(run, m).revoked
    decreases n
  {
    if m < n {
      RunGrows(run, n - 1, n);
      RunGrows(run, m, n - 1);
      var w :| w in After(run, m).guards;
      assert w in After(run, n - 1).guards;
      SealedUngovernedCannotBeRevoked(run, m, n - 1, id);
      SealedRevokeStep(After(run, n - 1), run[n - 1], id);
    }
  }
}
