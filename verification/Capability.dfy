/** The capability registry (capability.py): agents in registration order and two indexes that
    must agree with them after every registration, replacement and removal.
 */
module Capabilities {
  import opened JsonTerms
  import opened Indexing

  datatype Capability = Capability(
    name: string, domain: string, description: string, tier: string,
    latencyMs: real, costPerTask: real, tags: seq<string>)

  /** One capability of one agent, as the indexes hold it. */
  type Entry = (string, Capability)

  /** The dictionary of agents in insertion order. */
  type Roster = seq<(string, seq<Capability>)>

  ghost predicate Distinct(r: Roster) {
    forall i, j :: 0 <= i < j < |r| ==> r[i].0 != r[j].0
  }

  function EntriesOf(agent: string, caps: seq<Capability>): (es: seq<Entry>)
    ensures |es| == |caps| && forall i :: 0 <= i < |es| ==> es[i] == (agent, caps[i])
  {
    seq(|caps|, i requires 0 <= i < |caps| => (agent, caps[i]))
  }

  /** Every capability of every agent, in order. */
  function Flat(r: Roster): seq<Entry> {
    if r == [] then [] else Flat(r[..|r| - 1]) + EntriesOf(r[|r| - 1].0, r[|r| - 1].1)
  }

  /** Order-preserving removal of one agent's entries. */
  function Without(agent: string, es: seq<Entry>): (out: seq<Entry>)
    ensures forall e :: e in out <==> e in es && e.0 != agent
  {
    if es == [] then []
    else
      var last := es[|es| - 1];
      var front := Without(agent, es[..|es| - 1]);
      assert es == es[..|es| - 1] + [last];
      if last.0 != agent then front + [last] else front
  }

  function Removed(agent: string, r: Roster): Roster {
    if r == [] then []
    else
      var last := r[|r| - 1];
      Removed(agent, r[..|r| - 1]) + (if last.0 != agent then [last] else [])
  }

  type Index = map<string, seq<Entry>>

  // ------------------------------------------------------------ filters commute

  lemma {:induction false} WithoutConcat(agent: string, a: seq<Entry>, b: seq<Entry>)
    ensures Without(agent, a + b) == Without(agent, a) + Without(agent, b)
    decreases |b|
  {
    if b == [] {
      assert a + b == a;
    } else {
      WithoutConcat(agent, a, b[..|b| - 1]);
      assert (a + b)[..|a + b| - 1] == a + b[..|b| - 1];
    }
  }

  lemma {:induction false} SelectWithout(keyOf: Entry -> string, key: string, agent: string, es: seq<Entry>)
    ensures Select(keyOf, key, Without(agent, es)) == Without(agent, Select(keyOf, key, es))
  {
    if es != [] {
      var front, last := es[..|es| - 1], es[|es| - 1];
      SelectWithout(keyOf, key, agent, front);
      assert Select(keyOf, key, [last]) == if keyOf(last) == key then [last] else [];
      assert Without(agent, [last]) == if last.0 != agent then [last] else [];
      SelectConcat(keyOf, key, Without(agent, front), [last]);
      WithoutConcat(agent, Select(keyOf, key, front), [last]);
    }
  }

  lemma {:induction false} WithoutAbsent(agent: string, es: seq<Entry>)
    requires forall e :: e in es ==> e.0 != agent
    ensures Without(agent, es) == es
  {
    if es != [] {
      var front, last := es[..|es| - 1], es[|es| - 1];
      assert es == front + [last];
      WithoutAbsent(agent, front);
    }
  }

  lemma {:induction false} WithoutAll(agent: string, es: seq<Entry>)
    requires forall i :: 0 <= i < |es| ==> es[i].0 == agent
    ensures Without(agent, es) == []
  {
    if es != [] {
      WithoutAll(agent, es[..|es| - 1]);
    }
  }

  lemma WithoutOwn(agent: string, caps: seq<Capability>, owner: string)
    ensures Without(agent, EntriesOf(owner, caps)) == if owner == agent then [] else EntriesOf(owner, caps)
  {
    if owner == agent {
      WithoutAll(agent, EntriesOf(owner, caps));
    } else {
      WithoutAbsent(agent, EntriesOf(owner, caps));
    }
  }

  lemma {:induction false} FlatRemoved(agent: string, r: Roster)
    ensures Flat(Removed(agent, r)) == Without(agent, Flat(r))
  {
    if r != [] {
      var front, last := r[..|r| - 1], r[|r| - 1];
      FlatRemoved(agent, front);
      WithoutConcat(agent, Flat(front), EntriesOf(last.0, last.1));
      WithoutOwn(agent, last.1, last.0);
      if last.0 != agent {
        assert (Removed(agent, front) + [last])[..|Removed(agent, front)|] == Removed(agent, front);
      } else {
        assert Removed(agent, r) == Removed(agent, front);
      }
    }
  }

  lemma {:induction false} RemovedFacts(agent: string, r: Roster)
    requires Distinct(r)
    ensures Distinct(Removed(agent, r))
    ensures forall e :: e in Removed(agent, r) <==> e in r && e.0 != agent
  {
    if r != [] {
      var front, last := r[..|r| - 1], r[|r| - 1];
      assert r == front + [last];
      RemovedFacts(agent, front);
      var out := Removed(agent, front);
      forall i | 0 <= i < |out| ensures out[i].0 != last.0 {
        assert out[i] in front;
      }
    }
  }

  ghost predicate NotIn(agent: string, r: Roster) {
    forall i :: 0 <= i < |r| ==> r[i].0 != agent
  }

  lemma RemovedIsGone(agent: string, r: Roster)
    requires Distinct(r)
    ensures NotIn(agent, Removed(agent, r))
  {
    RemovedFacts(agent, r);
    var left := Removed(agent, r);
    forall i | 0 <= i < |left| ensures left[i].0 != agent {
      assert left[i] in left;
    }
  }

  lemma DistinctSnoc(r: Roster, agent: string, caps: seq<Capability>)
    requires Distinct(r) && NotIn(agent, r)
    ensures Distinct(r + [(agent, caps)])
  {
  }

  lemma FlatSnoc(r: Roster, agent: string, caps: seq<Capability>)
    ensures Flat(r + [(agent, caps)]) == Flat(r) + EntriesOf(agent, caps)
  {
    assert (r + [(agent, caps)])[..|r|] == r;
  }

  /** The entries of a registered agent are exactly its capabilities. */
  lemma {:induction false} AgentEntries(r: Roster, i: nat, e: Entry)
    requires Distinct(r) && i < |r| && e in Flat(r) && e.0 == r[i].0
    ensures e.1 in r[i].1
    decreases |r|
  {
    var front, last := r[..|r| - 1], r[|r| - 1];
    if e in EntriesOf(last.0, last.1) {
      assert last.0 == r[i].0;
    } else {
      FlatAgents(front, e);
      var k :| 0 <= k < |front| && front[k].0 == e.0;
      AgentEntries(front, k, e);
    }
  }

  lemma {:induction false} FlatAgents(r: Roster, e: Entry)
    requires e in Flat(r)
    ensures exists k :: 0 <= k < |r| && r[k].0 == e.0
  {
    var front, last := r[..|r| - 1], r[|r| - 1];
    if e in EntriesOf(last.0, last.1) {
      assert r[|r| - 1].0 == e.0;
    } else {
      FlatAgents(front, e);
      var k :| 0 <= k < |front| && front[k].0 == e.0;
      assert r[k].0 == e.0;
    }
  }

  // ------------------------------------------------------------------- matching

  predicate OccursAt(s: string, part: string, i: nat) {
    i + |part| <= |s| && s[i..i + |part|] == part
  }

  predicate Contains(s: string, part: string) {
    exists i :: 0 <= i <= |s| && OccursAt(s, part, i)
  }

  predicate Matches(lower: string -> string, c: Capability, requirement: string) {
    var wanted := lower(requirement);
    || Contains(lower(c.name), wanted)
    || Contains(lower(c.domain), wanted)
    || Contains(lower(c.description), wanted)
    || exists t :: t in c.tags && Contains(lower(t), wanted)
  }

  datatype Preference = Preference(cheap: bool, fast: bool)

  function Score(p: Preference, c: Capability): real {
    1.0
    + (if p.cheap && c.costPerTask > 0.0 then 1.0 / c.costPerTask else 0.0)
    + (if p.fast && c.latencyMs > 0.0 then 1.0 / c.latencyMs else 0.0)
  }

  ghost predicate Within(s: string, before: string, part: string, after: string) {
    s == before + part + after
  }

  lemma ContainsIff(s: string, part: string)
    ensures Contains(s, part) <==> exists before, after :: Within(s, before, part, after)
  {
    if i :| 0 <= i <= |s| && OccursAt(s, part, i) {
      assert Within(s, s[..i], part, s[i + |part|..]);
    }
    if before, after :| Within(s, before, part, after) {
      assert s[|before|..|before| + |part|] == part;
      assert OccursAt(s, part, |before|);
    }
  }

  /** A capability matches exactly when the lower-cased requirement is part of its lower-cased
      name, domain or description or of one of its lower-cased tags. */
  lemma MatchesIff(lower: string -> string, c: Capability, requirement: string)
    ensures
      Matches(lower, c, requirement) <==>
      exists text, before, after ::
        text in [c.name, c.domain, c.description] + c.tags && Within(lower(text), before, lower(requirement), after)
  {
    var texts := [c.name, c.domain, c.description] + c.tags;
    assert c.name == texts[0] && c.domain == texts[1] && c.description == texts[2];
    assert forall t :: t in texts <==> t == c.name || t == c.domain || t == c.description || t in c.tags;
    forall t ensures Contains(lower(t), lower(requirement)) <==> exists before, after :: Within(lower(t), before, lower(requirement), after) {
      ContainsIff(lower(t), lower(requirement));
    }
  }

  /** Order-preserving filter by match. */
  function Candidates(lower: string -> string, requirement: string, es: seq<Entry>): (out: seq<Entry>)
    ensures forall e :: e in out <==> e in es && Matches(lower, e.1, requirement)
  {
    if es == [] then []
    else
      var last := es[|es| - 1];
      var front := Candidates(lower, requirement, es[..|es| - 1]);
      assert es == es[..|es| - 1] + [last];
      if Matches(lower, last.1, requirement) then front + [last] else front
  }

  /** The first of the best: at least as good as all, better than every earlier one. */
  ghost predicate FirstBest(p: Preference, es: seq<Entry>, i: nat) {
    && i < |es|
    && (forall j :: 0 <= j < |es| ==> Score(p, es[j].1) <= Score(p, es[i].1))
    && (forall j :: 0 <= j < i ==> Score(p, es[j].1) < Score(p, es[i].1))
  }

  lemma FirstBestIsUnique(p: Preference, es: seq<Entry>, i: nat, j: nat)
    requires FirstBest(p, es, i) && FirstBest(p, es, j)
    ensures i == j
  {
    var si, sj := Score(p, es[i].1), Score(p, es[j].1);
  }

  /** What a preference looks at. */
  function Measure(cheap: bool, c: Capability): real {
    if cheap then c.costPerTask else c.latencyMs
  }

  lemma PreferenceOrders(cheap: bool, a: Capability, b: Capability)
    ensures
      var p, u, v := Preference(cheap, !cheap), Measure(cheap, a), Measure(cheap, b);
      Score(p, a) <= Score(p, b) <==> u <= 0.0 || (v > 0.0 && v <= u)
  {
    var u, v := Measure(cheap, a), Measure(cheap, b);
    if u > 0.0 && v > 0.0 {
      ReciprocalOrder(u, v);
    }
  }

  lemma ReciprocalOrder(u: real, v: real)
    requires u > 0.0 && v > 0.0
    ensures 1.0 / u <= 1.0 / v <==> v <= u
  {
    var a, b := 1.0 / u, 1.0 / v;
    assert a * u == 1.0 && b * v == 1.0;
    if v <= u {
      assert a * v <= 1.0;
      assert (b - a) * v >= 0.0;
    } else {
      assert a * v > 1.0 by {
        assert a > 0.0 && a * (v - u) > 0.0;
      }
      assert (b - a) * v < 0.0;
    }
  }

  ghost predicate Least(cheap: bool, es: seq<Entry>, i: nat) {
    i < |es| && forall j :: 0 <= j < |es| ==> Measure(cheap, es[i].1) <= Measure(cheap, es[j].1)
  }

  /** With one preference the winner costs, or takes, no more than any other candidate exactly when
      every candidate has a positive measure, or none has and the first one is the least.  A
      measure of zero, which is the default, counts as no bonus at all. */
  lemma PreferredIsLeastIff(cheap: bool, es: seq<Entry>, i: nat)
    requires FirstBest(Preference(cheap, !cheap), es, i)
    ensures
      Least(cheap, es, i) <==>
        || (forall j :: 0 <= j < |es| ==> Measure(cheap, es[j].1) > 0.0)
        || ((forall j :: 0 <= j < |es| ==> Measure(cheap, es[j].1) <= 0.0) && Least(cheap, es, 0))
  {
    forall j | 0 <= j < |es| ensures Measure(cheap, es[j].1) <= 0.0 || 0.0 < Measure(cheap, es[i].1) <= Measure(cheap, es[j].1) {
      PreferenceOrders(cheap, es[j].1, es[i].1);
    }
    if i > 0 {
      PreferenceOrders(cheap, es[i].1, es[0].1);
    }
  }

  /** A free capability loses against any priced one when cheap ones are preferred. */
  lemma FreeIsPassedOver(free: Entry, priced: Entry)
    requires free.1.costPerTask == 0.0 && priced.1.costPerTask > 0.0
    ensures FirstBest(Preference(true, false), [free, priced], 1) && !Least(true, [free, priced], 1)
  {
    var es := [free, priced];
    PreferenceOrders(true, priced.1, free.1);
    PreferenceOrders(true, free.1, priced.1);
    assert es[0] == free;
  }

  // ------------------------------------------------------------------ the object

  class CapabilityRegistry {
    const lower: string -> string
    var byAgent: Roster
    var byDomain: Index
    var byName: Index

    ghost function DomainKey(): Entry -> string {
      (e: Entry) => e.1.domain
    }

    ghost function NameKey(): Entry -> string {
      var low := lower;
      (e: Entry) => low(e.1.name)
    }

    ghost predicate Valid()
      reads this
    {
      && Distinct(byAgent)
      && Indexes(byDomain, DomainKey(), Flat(byAgent))
      && Indexes(byName, NameKey(), Flat(byAgent))
    }

    constructor (lowercase: string -> string)
      ensures Valid() && byAgent == [] && lower == lowercase
    {
      lower := lowercase;
      byAgent, byDomain, byName := [], map[], map[];
    }

    method Pop(agent: string) returns (caps: seq<Capability>)
      requires Valid()
      modifies this`byAgent
      ensures byAgent == Removed(agent, old(byAgent)) && Distinct(byAgent)
      ensures forall e :: e in Flat(old(byAgent)) && e.0 == agent ==> e.1 in caps
    {
      caps := [];
      RemovedFacts(agent, byAgent);
      var i := 0;
      while i < |byAgent| && byAgent[i].0 != agent
        invariant 0 <= i <= |byAgent|
        invariant forall j :: 0 <= j < i ==> byAgent[j].0 != agent
      {
        i := i + 1;
      }
      ghost var before := byAgent;
      if i < |byAgent| {
        caps := byAgent[i].1;
        forall e | e in Flat(before) && e.0 == agent ensures e.1 in caps {
          AgentEntries(before, i, e);
        }
      } else {
        forall e | e in Flat(before) ensures e.0 != agent {
          FlatAgents(before, e);
        }
      }
      byAgent := Removed(agent, byAgent);
    }

    /** Clears the lists of every key of the agent's capabilities. */
    method ClearAll(agent: string, caps: seq<Capability>, ghost es: seq<Entry>)
      requires Indexes(byDomain, DomainKey(), es) && Indexes(byName, NameKey(), es)
      requires forall e :: e in es && e.0 == agent ==> e.1 in caps
      modifies this`byDomain, this`byName
      ensures Indexes(byDomain, DomainKey(), Without(agent, es)) && Indexes(byName, NameKey(), Without(agent, es))
    {
      var i := 0;
      NothingCleared(byDomain, DomainKey(), agent, es);
      NothingCleared(byName, NameKey(), agent, es);
      assert caps[..0] == [];
      while i < |caps|
        invariant 0 <= i <= |caps|
        invariant PartlyCleared(byDomain, DomainKey(), agent, es, caps[..i])
        invariant PartlyCleared(byName, NameKey(), agent, es, caps[..i])
      {
        assert caps[..i + 1] == caps[..i] + [caps[i]];
        byDomain := Drop(byDomain, DomainKey(), caps[i].domain, agent, es, caps[..i], caps[i]);
        byName := Drop(byName, NameKey(), lower(caps[i].name), agent, es, caps[..i], caps[i]);
        i := i + 1;
      }
      assert caps[..i] == caps;
      AllCleared(byDomain, DomainKey(), agent, es, caps);
      AllCleared(byName, NameKey(), agent, es, caps);
    }

    method UnregisterAgent(agent: string)
      requires Valid()
      modifies this
      ensures Valid() && byAgent == Removed(agent, old(byAgent))
    {
      ghost var es := Flat(byAgent);
      FlatRemoved(agent, byAgent);
      var caps := Pop(agent);
      ClearAll(agent, caps, es);
    }

    /** Appends one entry to the lists of its domain and of its name. */
    method IndexEntry(e: Entry, ghost es: seq<Entry>)
      requires Indexes(byDomain, DomainKey(), es) && Indexes(byName, NameKey(), es)
      modifies this`byDomain, this`byName
      ensures Indexes(byDomain, DomainKey(), es + [e]) && Indexes(byName, NameKey(), es + [e])
    {
      AppendedIndexes(byDomain, DomainKey(), e, es);
      byDomain := Appended(byDomain, e.1.domain, e);
      AppendedIndexes(byName, NameKey(), e, es);
      byName := Appended(byName, lower(e.1.name), e);
    }

    /** Indexes the capabilities of one agent, in order. */
    method IndexAll(agent: string, caps: seq<Capability>, ghost es: seq<Entry>)
      requires Indexes(byDomain, DomainKey(), es) && Indexes(byName, NameKey(), es)
      modifies this`byDomain, this`byName
      ensures Indexes(byDomain, DomainKey(), es + EntriesOf(agent, caps))
      ensures Indexes(byName, NameKey(), es + EntriesOf(agent, caps))
    {
      var i := 0;
      assert es + EntriesOf(agent, caps[..0]) == es;
      while i < |caps|
        invariant 0 <= i <= |caps|
        invariant Indexes(byDomain, DomainKey(), es + EntriesOf(agent, caps[..i]))
        invariant Indexes(byName, NameKey(), es + EntriesOf(agent, caps[..i]))
      {
        ghost var sofar := es + EntriesOf(agent, caps[..i]);
        assert es + EntriesOf(agent, caps[..i + 1]) == sofar + [(agent, caps[i])];
        IndexEntry((agent, caps[i]), sofar);
        i := i + 1;
      }
      assert caps[..i] == caps;
    }

    /** An agent that is not registered goes to the end. */
    method Append(agent: string, caps: seq<Capability>)
      requires Valid() && NotIn(agent, byAgent)
      modifies this
      ensures Valid() && byAgent == old(byAgent) + [(agent, caps)]
    {
      ghost var others := byAgent;
      DistinctSnoc(others, agent, caps);
      FlatSnoc(others, agent, caps);
      byAgent := byAgent + [(agent, caps)];
      IndexAll(agent, caps, Flat(others));
    }

    method Register(agent: string, caps: seq<Capability>)
      requires Valid()
      modifies this
      ensures Valid() && byAgent == Removed(agent, old(byAgent)) + [(agent, caps)]
    {
      RemovedIsGone(agent, byAgent);
      UnregisterAgent(agent);
      Append(agent, caps);
    }

    method FindByDomain(domain: string) returns (found: seq<Entry>)
      requires Valid()
      ensures found == Select(DomainKey(), domain, Flat(byAgent))
    {
      assert IndexedAt(byDomain, DomainKey(), domain, Flat(byAgent));
      found := Lookup(byDomain, domain);
    }

    method FindByName(name: string) returns (found: seq<Entry>)
      requires Valid()
      ensures found == Select(NameKey(), lower(name), Flat(byAgent))
    {
      assert IndexedAt(byName, NameKey(), lower(name), Flat(byAgent));
      found := Lookup(byName, lower(name));
    }

    /** All entries in agent order, as the scan without a domain builds them. */
    method AllEntries() returns (es: seq<Entry>)
      ensures es == Flat(byAgent)
    {
      es := [];
      for i := 0 to |byAgent|
        invariant es == Flat(byAgent[..i])
      {
        assert byAgent[..i + 1][..i] == byAgent[..i];
        es := es + EntriesOf(byAgent[i].0, byAgent[i].1);
      }
      assert byAgent[..|byAgent|] == byAgent;
    }

    /** The best candidate is the one a scan of all agents would pick: the first best of the
        matching entries, restricted to the domain when one is given.  An empty domain counts as
        none. */
    method FindBest(requirement: string, domain: Option<string>, p: Preference) returns (best: Option<Entry>)
      requires Valid()
      ensures
        var scanned := if domain.Some? && domain.value != "" then Select(DomainKey(), domain.value, Flat(byAgent)) else Flat(byAgent);
        var cs := Candidates(lower, requirement, scanned);
        if cs == [] then best == None
        else best.Some? && exists i: nat :: FirstBest(p, cs, i) && best.value == cs[i]
    {
      var pool: seq<Entry>;
      if domain.Some? && domain.value != "" {
        pool := FindByDomain(domain.value);
      } else {
        pool := AllEntries();
      }
      var cs := Candidates(lower, requirement, pool);
      if cs == [] {
        return None;
      }
      var at := BestAt(p, cs);
      best := Some(cs[at]);
    }
  }

  /** `max` with a key keeps the first of the best. */
  method BestAt(p: Preference, cs: seq<Entry>) returns (at: nat)
    requires cs != []
    ensures FirstBest(p, cs, at)
  {
    at := 0;
    for i := 1 to |cs|
      invariant 0 <= at < i
      invariant forall j :: 0 <= j < i ==> Score(p, cs[j].1) <= Score(p, cs[at].1)
      invariant forall j :: 0 <= j < at ==> Score(p, cs[j].1) < Score(p, cs[at].1)
    {
      if Score(p, cs[i].1) > Score(p, cs[at].1) {
        at := i;
      }
    }
  }

  // -------------------------------------------------------------- index updates

  /** Some capability in `caps` has this key. */
  ghost predicate Cleared(keyOf: Entry -> string, key: string, agent: string, caps: seq<Capability>) {
    exists i :: 0 <= i < |caps| && keyOf((agent, caps[i])) == key
  }

  /** Midway through a removal: keys of the capabilities done so far describe the other agents,
      the remaining keys still describe everyone. */
  ghost predicate PartlyCleared(m: Index, keyOf: Entry -> string, agent: string, es: seq<Entry>, done: seq<Capability>) {
    forall key :: IndexedAt(m, keyOf, key, if Cleared(keyOf, key, agent, done) then Without(agent, es) else es)
  }

  lemma NothingCleared(m: Index, keyOf: Entry -> string, agent: string, es: seq<Entry>)
    requires Indexes(m, keyOf, es)
    ensures PartlyCleared(m, keyOf, agent, es, [])
  {
    forall key ensures IndexedAt(m, keyOf, key, if Cleared(keyOf, key, agent, []) then Without(agent, es) else es) {
      assert IndexedAt(m, keyOf, key, es);
    }
  }

  lemma ClearedMore(keyOf: Entry -> string, k: string, agent: string, done: seq<Capability>, cap: Capability)
    ensures Cleared(keyOf, k, agent, done + [cap]) <==> Cleared(keyOf, k, agent, done) || k == keyOf((agent, cap))
  {
    var more := done + [cap];
    if Cleared(keyOf, k, agent, done) {
      var i :| 0 <= i < |done| && keyOf((agent, done[i])) == k;
      assert keyOf((agent, more[i])) == k;
    }
    assert more[|done|] == cap;
  }

  /** Once every key of the agent's capabilities is cleared, the index describes the others. */
  lemma AllCleared(m: Index, keyOf: Entry -> string, agent: string, es: seq<Entry>, caps: seq<Capability>)
    requires forall e :: e in es && e.0 == agent ==> e.1 in caps
    requires PartlyCleared(m, keyOf, agent, es, caps)
    ensures Indexes(m, keyOf, Without(agent, es))
  {
    forall e | e in es && e.0 == agent ensures Cleared(keyOf, keyOf(e), agent, caps) {
      var i :| 0 <= i < |caps| && caps[i] == e.1;
    }
    forall key ensures IndexedAt(m, keyOf, key, Without(agent, es)) {
      assert IndexedAt(m, keyOf, key, if Cleared(keyOf, key, agent, caps) then Without(agent, es) else es);
      if !Cleared(keyOf, key, agent, caps) {
        WithoutAbsent(agent, Select(keyOf, key, es));
        SelectWithout(keyOf, key, agent, es);
      }
    }
  }

  /** One inner step of removal: filter the list at the key, dropping the key when it empties. */
  method Drop(m: Index, ghost keyOf: Entry -> string, key: string, agent: string, ghost es: seq<Entry>,
              ghost done: seq<Capability>, ghost cap: Capability) returns (m': Index)
    requires key == keyOf((agent, cap))
    requires PartlyCleared(m, keyOf, agent, es, done)
    ensures PartlyCleared(m', keyOf, agent, es, done + [cap])
  {
    var remaining := Without(agent, Lookup(m, key));
    m' := if remaining != [] then m[key := remaining] else m - {key};
    SelectWithout(keyOf, key, agent, es);
    assert IndexedAt(m, keyOf, key, if Cleared(keyOf, key, agent, done) then Without(agent, es) else es);
    WithoutTwice(agent, Select(keyOf, key, es));
    forall k ensures IndexedAt(m', keyOf, k, if Cleared(keyOf, k, agent, done + [cap]) then Without(agent, es) else es) {
      assert IndexedAt(m, keyOf, k, if Cleared(keyOf, k, agent, done) then Without(agent, es) else es);
      ClearedMore(keyOf, k, agent, done, cap);
    }
  }

  lemma WithoutTwice(agent: string, es: seq<Entry>)
    ensures Without(agent, Without(agent, es)) == Without(agent, es)
  {
    WithoutAbsent(agent, Without(agent, es));
  }

  // ------------------------------------------------------------------- histories

  datatype Op = DoRegister(agent: string, caps: seq<Capability>) | DoUnregister(agent: string)

  function Replay(ops: seq<Op>): Roster {
    if ops == [] then []
    else
      var before := Replay(ops[..|ops| - 1]);
      match ops[|ops| - 1]
      case DoRegister(agent, caps) => Removed(agent, before) + [(agent, caps)]
      case DoUnregister(agent) => Removed(agent, before)
  }

  /** Operation `i` is the last one about its agent. */
  predicate LastAbout(ops: seq<Op>, i: nat)
    requires i < |ops|
  {
    forall j :: i < j < |ops| ==> ops[j].agent != ops[i].agent
  }

  /** The roster after a history, without any index: the registrations that no later operation
      about the same agent overrides, in the order they were made. */
  function Surviving(ops: seq<Op>, upto: nat): Roster
    requires upto <= |ops|
  {
    if upto == 0 then []
    else
      Surviving(ops, upto - 1)
      + (if ops[upto - 1].DoRegister? && LastAbout(ops, upto - 1) then [(ops[upto - 1].agent, ops[upto - 1].caps)] else [])
  }

  lemma {:induction false} SurvivingExtends(ops: seq<Op>, op: Op, upto: nat)
    requires upto <= |ops|
    ensures Surviving(ops + [op], upto) == Removed(op.agent, Surviving(ops, upto))
  {
    if upto > 0 {
      SurvivingExtends(ops, op, upto - 1);
      var all, i := ops + [op], upto - 1;
      assert all[i] == ops[i];
      var front := Surviving(ops, i);
      if ops[i].DoRegister? && LastAbout(ops, i) {
        var e := (ops[i].agent, ops[i].caps);
        assert (front + [e])[..|front|] == front;
        assert all[|ops|] == op;
        if ops[i].agent != op.agent {
          assert LastAbout(all, i);
        }
      } else if ops[i].DoRegister? {
        var j :| i < j < |ops| && ops[j].agent == ops[i].agent;
        assert all[j].agent == all[i].agent;
        assert !LastAbout(all, i);
        assert Surviving(ops, upto) == front;
      } else {
        assert Surviving(ops, upto) == front;
      }
    }
  }

  /** After any history of registrations, replacements and removals the roster holds exactly the
      surviving registrations, in order. */
  lemma {:induction false} ReplayIsSurviving(ops: seq<Op>)
    ensures Replay(ops) == Surviving(ops, |ops|)
  {
    if ops != [] {
      var before, op := ops[..|ops| - 1], ops[|ops| - 1];
      ReplayIsSurviving(before);
      assert ops == before + [op];
      SurvivingExtends(before, op, |before|);
      assert LastAbout(ops, |before|);
    }
  }
}
