/** The artifact store as the object it is: a dictionary in insertion order, four indexes beside
    it, and the digests, revocations, watchers, guards and seals (artifact.py).
 */
module ArtifactStores {
  import opened JsonTerms
  import opened Indexing
  import opened Artifacts
  import opened Stores

  function TaskOf(): Artifact -> string {
    (a: Artifact) => a.task
  }

  function DomainOf(): Artifact -> string {
    (a: Artifact) => a.domain
  }

  function AgentOf(): Artifact -> string {
    (a: Artifact) => a.agent
  }

  function IdOf(): Key -> string {
    (k: Key) => k.1
  }

  /** A stored, unrevoked key with the guard to ask, collected under the lock. */
  datatype Glimpse = Glimpse(key: Key, artifact: Artifact, guard: Option<nat>)

  function Glimpses(s: Store, keys: seq<Key>): seq<Glimpse> {
    if keys == [] then []
    else
      var front, last := Glimpses(s, keys[..|keys| - 1]), keys[|keys| - 1];
      if last in s.artifacts && last !in s.revoked then
        front + [Glimpse(last, s.artifacts[last], if last.0 in s.guards then Some(s.guards[last.0].guard) else None)]
      else front
  }

  /** Guards are asked outside the lock; one that raises counts as a refusal. */
  predicate Allowed(g: Glimpse, ask: Ask) {
    g.guard.Some? ==> ask(g.guard.value, g.key.1) == Allow
  }

  function Passed(snapshot: seq<Glimpse>, ask: Ask): seq<Artifact> {
    if snapshot == [] then []
    else
      var front, last := Passed(snapshot[..|snapshot| - 1], ask), snapshot[|snapshot| - 1];
      if Allowed(last, ask) then front + [last.artifact] else front
  }

  /** Collecting and then asking shows exactly the visible artifacts. */
  lemma {:induction false} TwoPhasesShow(s: Store, keys: seq<Key>, ask: Ask)
    ensures Passed(Glimpses(s, keys), ask) == Shown(s, keys, ask)
  {
    if keys != [] {
      var front, last := keys[..|keys| - 1], keys[|keys| - 1];
      TwoPhasesShow(s, front, ask);
      var before, all := Glimpses(s, front), Glimpses(s, keys);
      if last in s.artifacts && last !in s.revoked {
        assert all[..|all| - 1] == before;
      }
    }
  }

  /** Filing a new key keeps an index by a field of the artifact right. */
  lemma FileKey(m: KeyIndex, f: Artifact -> string, artifacts: map<Key, Artifact>, order: seq<Key>, key: Key, a: Artifact)
    requires Indexes(m, FiledUnder(artifacts, f), order) && key !in order
    ensures Indexes(Appended(m, (key.0, f(a)), key), FiledUnder(artifacts[key := a], f), order + [key])
  {
    var filed := FiledUnder(artifacts[key := a], f);
    IndexesAgree(m, FiledUnder(artifacts, f), filed, order);
    AppendedIndexes(m, filed, key, order);
  }

  type KeyIndex = map<Key, seq<Key>>

  /** The four indexes agree with the dictionary. */
  ghost predicate FourIndexes(
    byId: map<string, seq<Key>>, byTask: KeyIndex, byDomain: KeyIndex, byAgent: KeyIndex,
    artifacts: map<Key, Artifact>, order: seq<Key>)
  {
    && Indexes(byId, IdOf(), order)
    && Indexes(byTask, FiledUnder(artifacts, TaskOf()), order)
    && Indexes(byDomain, FiledUnder(artifacts, DomainOf()), order)
    && Indexes(byAgent, FiledUnder(artifacts, AgentOf()), order)
  }

  lemma FileEverywhere(
    byId: map<string, seq<Key>>, byTask: KeyIndex, byDomain: KeyIndex, byAgent: KeyIndex,
    artifacts: map<Key, Artifact>, order: seq<Key>, key: Key, a: Artifact)
    requires FourIndexes(byId, byTask, byDomain, byAgent, artifacts, order) && key !in order
    ensures FourIndexes(
      Appended(byId, key.1, key), Appended(byTask, (key.0, a.task), key), Appended(byDomain, (key.0, a.domain), key),
      Appended(byAgent, (key.0, a.agent), key), artifacts[key := a], order + [key])
  {
    AppendedIndexes(byId, IdOf(), key, order);
    FileKey(byTask, TaskOf(), artifacts, order, key, a);
    FileKey(byDomain, DomainOf(), artifacts, order, key, a);
    FileKey(byAgent, AgentOf(), artifacts, order, key, a);
  }

  class ArtifactStore {
    var order: seq<Key>
    var artifacts: map<Key, Artifact>
    var digests: map<Key, ContentHash>
    var revoked: set<Key>
    var byId: map<string, seq<Key>>
    var byTask: KeyIndex
    var byDomain: KeyIndex
    var byAgent: KeyIndex
    var watchers: map<Key, seq<nat>>
    var guards: map<string, Guarded>
    var seals: map<string, string>
    var minted: nat

    ghost function View(): Store
      reads this
    {
      Store(order, artifacts, digests, revoked, watchers, guards, seals, minted)
    }

    ghost predicate Indexed()
      reads this
    {
      FourIndexes(byId, byTask, byDomain, byAgent, artifacts, order)
    }

    ghost predicate Valid()
      reads this
    {
      Sound(View()) && Indexed()
    }

    constructor ()
      ensures Valid() && View() == EMPTY
    {
      order, artifacts, digests, revoked := [], map[], map[], {};
      byId, byTask, byDomain, byAgent := map[], map[], map[], map[];
      watchers, guards, seals, minted := map[], map[], map[], 0;
    }

    method BindGoverned(workflow: string, seal: string, guard: nat) returns (outcome: Outcome)
      requires Valid()
      modifies this`guards, this`seals, this`minted
      ensures Valid() && (View(), outcome) == Bind(old(View()), workflow, seal, guard)
    {
      BindIsSound(View(), workflow, seal, guard);
      if workflow in seals {
        if seals[workflow] != seal {
          return Refused(SealConflict);
        }
        outcome := Bound(guards[workflow].capability);
      } else {
        outcome := Bound(minted);
        Mint(workflow, seal, guard);
      }
    }

    method Mint(workflow: string, seal: string, guard: nat)
      modifies this`guards, this`seals, this`minted
      ensures seals == old(seals)[workflow := seal] && minted == old(minted) + 1
      ensures guards == old(guards)[workflow := Guarded(old(minted), guard)]
    {
      seals := seals[workflow := seal];
      guards := guards[workflow := Guarded(minted, guard)];
      minted := minted + 1;
    }

    method CollectCallbacks(workflow: string, a: Artifact) returns (callbacks: seq<nat>)
      ensures callbacks == Callbacks(View(), workflow, a)
    {
      callbacks := Lookup(watchers, (workflow, a.task)) + Lookup(watchers, (workflow, a.domain));
    }

    /** Files a new key in all four indexes. */
    method FileKeyEverywhere(key: Key, a: Artifact)
      requires Indexed() && key !in order && key.1 == a.id
      modifies this`byId, this`byTask, this`byDomain, this`byAgent
      ensures FourIndexes(byId, byTask, byDomain, byAgent, artifacts[key := a], order + [key])
    {
      FileEverywhere(byId, byTask, byDomain, byAgent, artifacts, order, key, a);
      byId := Appended(byId, a.id, key);
      byTask := Appended(byTask, (key.0, a.task), key);
      byDomain := Appended(byDomain, (key.0, a.domain), key);
      byAgent := Appended(byAgent, (key.0, a.agent), key);
    }

    /** Stores an artifact that is not there yet, with its digest and its index entries. */
    method File(key: Key, a: Artifact, digest: ContentHash)
      requires Indexed() && key.1 == a.id && key !in order
      modifies this`order, this`artifacts, this`digests, this`byId, this`byTask, this`byDomain, this`byAgent
      ensures Indexed()
      ensures order == old(order) + [key] && artifacts == old(artifacts)[key := a] && digests == old(digests)[key := digest]
    {
      FileKeyEverywhere(key, a);
      artifacts := artifacts[key := a];
      order := order + [key];
      digests := digests[key := digest];
    }

    /** The storing region of every publication: the stored artifact is rebuilt from the
        canonical dictionary of the published one and equals it. */
    method PublishDeferred(workflow: string, a: Artifact, capability: Option<nat>, ask: Ask) returns (outcome: Outcome)
      requires Valid() && WellFormed(a)
      modifies this`order, this`artifacts, this`digests, this`byId, this`byTask, this`byDomain, this`byAgent
      ensures Valid() && (View(), outcome) == Project(old(View()), workflow, a, capability, ask)
    {
      if workflow != "" {
        if workflow !in guards || capability != Some(guards[workflow].capability) {
          return Refused(InvalidCapability);
        }
        if ask(guards[workflow].guard, a.id) != Allow {
          return Refused(NotAuthoritative);
        }
      }
      if (workflow, a.id) in artifacts {
        return Refused(AlreadyExists);
      }
      RebuildIsIdentity(a);
      var immutable := Construct(CanonicalDict(a)).value;
      var digest := HashOf(immutable);
      if digest.None? {
        return Refused(NotCanonical);
      }
      InsertIsSound(View(), workflow, a);
      File((workflow, a.id), immutable, digest.value);
      var callbacks := CollectCallbacks(workflow, immutable);
      outcome := Stored(callbacks);
    }

    /** An ungoverned publication with nothing in between its two lock regions. */
    method PublishUngoverned(a: Artifact, ask: Ask) returns (outcome: Outcome)
      requires Valid() && WellFormed(a)
      modifies this`order, this`artifacts, this`digests, this`byId, this`byTask, this`byDomain, this`byAgent
      ensures Valid()
      ensures old(guards) != map[] ==> outcome == Refused(Sealed) && View() == old(View())
      ensures old(guards) == map[] ==> (View(), outcome) == Insert(old(View()), "", a)
    {
      if guards != map[] {
        return Refused(Sealed);
      }
      outcome := PublishDeferred("", a, None, ask);
    }

    method RevokeArtifact(id: string) returns (outcome: Outcome)
      requires Valid()
      modifies this`revoked
      ensures Valid() && (View(), outcome) == Revoke(old(View()), id)
    {
      if guards != map[] {
        return Refused(Sealed);
      }
      revoked := revoked + {("", id)};
      outcome := Done;
    }

    method RevokeProjected(workflow: string, id: string, capability: nat) returns (outcome: Outcome)
      requires Valid()
      modifies this`revoked
      ensures Valid() && (View(), outcome) == RevokeGoverned(old(View()), workflow, id, capability)
    {
      if workflow !in guards || guards[workflow].capability != capability {
        return Refused(InvalidCapability);
      }
      revoked := revoked + {(workflow, id)};
      outcome := Done;
    }

    method AddWatcher(key: string, callback: nat, workflow: Option<string>) returns (outcome: Outcome)
      requires Valid()
      modifies this`watchers
      ensures Valid() && (View(), outcome) == Watch(old(View()), key, callback, workflow)
    {
      if workflow.None? && guards != map[] {
        return Refused(WorkflowRequired);
      }
      var scope := if workflow.Some? then workflow.value else "";
      watchers := Appended(watchers, (scope, key), callback);
      outcome := Done;
    }

    method Snapshot(keys: seq<Key>) returns (snapshot: seq<Glimpse>)
      ensures snapshot == Glimpses(View(), keys)
    {
      snapshot := [];
      for i := 0 to |keys|
        invariant snapshot == Glimpses(View(), keys[..i])
      {
        assert keys[..i + 1][..i] == keys[..i];
        var key := keys[i];
        if key in artifacts && key !in revoked {
          var guard := if key.0 in guards then Some(guards[key.0].guard) else None;
          snapshot := snapshot + [Glimpse(key, artifacts[key], guard)];
        }
      }
      assert keys[..|keys|] == keys;
    }

    static method Resolve(snapshot: seq<Glimpse>, ask: Ask) returns (visible: seq<Artifact>)
      ensures visible == Passed(snapshot, ask)
    {
      visible := [];
      for i := 0 to |snapshot|
        invariant visible == Passed(snapshot[..i], ask)
      {
        assert snapshot[..i + 1][..i] == snapshot[..i];
        if Allowed(snapshot[i], ask) {
          visible := visible + [snapshot[i].artifact];
        }
      }
      assert snapshot[..|snapshot|] == snapshot;
    }

    method ShowKeys(keys: seq<Key>, ask: Ask) returns (visible: seq<Artifact>)
      ensures visible == Shown(View(), keys, ask)
    {
      var snapshot := Snapshot(keys);
      visible := Resolve(snapshot, ask);
      TwoPhasesShow(View(), keys, ask);
    }

    method IsVisible(key: Key, ask: Ask) returns (visible: bool)
      ensures visible == Visible(View(), key, ask)
    {
      var shown := ShowKeys([key], ask);
      visible := shown != [];
    }

    /** A task query is the publication log filtered by task and visibility, in order. */
    method GetByTask(task: string, workflow: string, ask: Ask) returns (found: seq<Artifact>)
      requires Valid()
      ensures found == Shown(View(), Select(FiledUnder(artifacts, TaskOf()), (workflow, task), order), ask)
      ensures forall a :: a in found <==> a.task == task && Visible(View(), (workflow, a.id), ask) && artifacts[(workflow, a.id)] == a
    {
      assert IndexedAt(byTask, FiledUnder(artifacts, TaskOf()), (workflow, task), order);
      found := ShowKeys(Lookup(byTask, (workflow, task)), ask);
      QueryShows(View(), TaskOf(), workflow, task, ask);
    }

    method GetByDomain(domain: string, workflow: string, ask: Ask) returns (found: seq<Artifact>)
      requires Valid()
      ensures found == Shown(View(), Select(FiledUnder(artifacts, DomainOf()), (workflow, domain), order), ask)
      ensures forall a :: a in found <==> a.domain == domain && Visible(View(), (workflow, a.id), ask) && artifacts[(workflow, a.id)] == a
    {
      assert IndexedAt(byDomain, FiledUnder(artifacts, DomainOf()), (workflow, domain), order);
      found := ShowKeys(Lookup(byDomain, (workflow, domain)), ask);
      QueryShows(View(), DomainOf(), workflow, domain, ask);
    }

    method GetByAgent(agent: string, workflow: string, ask: Ask) returns (found: seq<Artifact>)
      requires Valid()
      ensures found == Shown(View(), Select(FiledUnder(artifacts, AgentOf()), (workflow, agent), order), ask)
      ensures forall a :: a in found <==> a.agent == agent && Visible(View(), (workflow, a.id), ask) && artifacts[(workflow, a.id)] == a
    {
      assert IndexedAt(byAgent, FiledUnder(artifacts, AgentOf()), (workflow, agent), order);
      found := ShowKeys(Lookup(byAgent, (workflow, agent)), ask);
      QueryShows(View(), AgentOf(), workflow, agent, ask);
    }

    /** The number of visible artifacts. */
    method Count(ask: Ask) returns (n: nat)
      requires Valid()
      ensures n == |VisibleAmong(View(), order, ask)|
    {
      var shown := ShowKeys(order, ask);
      ShownCounts(View(), order, ask);
      n := |shown|;
    }

    /** The first lock region of a read. */
    method FetchArtifact(id: string, workflow: Option<string>) returns (f: Fetched)
      requires Valid()
      ensures f == Fetch(View(), id, workflow)
    {
      var key: Key;
      if workflow.Some? {
        key := (workflow.value, id);
      } else {
        assert IndexedAt(byId, IdOf(), id, order);
        SelectAgrees(IdOf(), (k: Key) => k.1, id, order);
        var matches := Lookup(byId, id);
        if exists k :: k in matches && k.0 in guards {
          return Governed;
        }
        if |matches| != 1 {
          return NoSingleMatch;
        }
        key := matches[0];
      }
      f := Candidate(key, if key in artifacts then Some(artifacts[key]) else None);
    }

    /** The second one, and the copy that is handed out: it equals the fetched artifact. */
    method FinishRead(f: Fetched, ask: Ask) returns (reading: Reading)
      requires f.Candidate? && f.artifact.Some? ==> WellFormed(f.artifact.value)
      ensures reading == Finish(View(), f, ask)
    {
      match f
      case Governed => reading := Withheld;
      case NoSingleMatch => reading := Missing;
      case Candidate(key, a) =>
        var visible := IsVisible(key, ask);
        if a.None? || !visible {
          return Missing;
        }
        RebuildIsIdentity(a.value);
        reading := Found(Construct(CanonicalDict(a.value)).value);
    }

    /** Both regions with nothing in between. */
    method GetArtifact(id: string, workflow: Option<string>, ask: Ask) returns (reading: Reading)
      requires Valid()
      ensures reading == Get(View(), id, workflow, ask)
    {
      var f := FetchArtifact(id, workflow);
      FetchedIsWellFormed(View(), id, workflow);
      reading := FinishRead(f, ask);
      ReadInOneGo(View(), id, workflow, ask);
    }

    /** The integrity check, both regions with nothing in between, also of a store whose contents
        were tampered with. */
    method Verify(id: string, workflow: string, ask: Ask) returns (ok: bool)
      ensures ok == VerifyAcross(View(), View(), (workflow, id), ask)
      ensures Valid() ==> ok == Visible(View(), (workflow, id), ask)
    {
      var key := (workflow, id);
      if key !in artifacts || key !in digests {
        return false;
      }
      assert Valid() ==> EntrySound(key, artifacts[key], digests, guards.Keys);
      var artifact, sealed := artifacts[key], digests[key];
      var visible := IsVisible(key, ask);
      ok := visible && HashOf(artifact) == Some(sealed);
    }
  }

  lemma FetchedIsWellFormed(s: Store, id: string, workflow: Option<string>)
    requires Sound(s)
    ensures
      var f := Fetch(s, id, workflow);
      f.Candidate? && f.artifact.Some? ==> WellFormed(f.artifact.value)
  {
    var f := Fetch(s, id, workflow);
    if f.Candidate? && f.artifact.Some? {
      assert EntrySound(f.key, s.artifacts[f.key], s.digests, s.guards.Keys);
    }
  }
}
