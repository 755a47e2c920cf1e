/** Artifacts and the freezing of their metadata (artifact.py).

    A Python value is a tree here; a mapping is the list of its items in order.  Values that
    contain themselves are not modelled.
 */
module Artifacts {
  import opened JsonTerms

  datatype Number = Finite(r: real) | NotFinite

  datatype Item = Item(key: Value, value: Value)

  datatype Value =
    | Nothing
    | Truth(b: bool)
    | Whole(i: int)
    | Float(f: Number)
    | Text(s: string)
    | List(elements: seq<Value>)
    | Tuple(elements: seq<Value>)
    | Dict(items: seq<Item>)
    | Proxy(items: seq<Item>)
    | Foreign

  /** Accepted as lossless canonical JSON. */
  predicate Canonical(v: Value) {
    match v
    case Float(f) => f.Finite?
    case List(xs) => forall i :: 0 <= i < |xs| ==> Canonical(xs[i])
    case Tuple(xs) => forall i :: 0 <= i < |xs| ==> Canonical(xs[i])
    case Dict(items) => forall i :: 0 <= i < |items| ==> items[i].key.Text? && Canonical(items[i].value)
    case Proxy(items) => forall i :: 0 <= i < |items| ==> items[i].key.Text? && Canonical(items[i].value)
    case Foreign => false
    case _ => true
  }

  function Freeze(v: Value): Value {
    match v
    case Dict(items) => Proxy(seq(|items|, i requires 0 <= i < |items| => Item(items[i].key, Freeze(items[i].value))))
    case Proxy(items) => Proxy(seq(|items|, i requires 0 <= i < |items| => Item(items[i].key, Freeze(items[i].value))))
    case List(xs) => Tuple(seq(|xs|, i requires 0 <= i < |xs| => Freeze(xs[i])))
    case Tuple(xs) => Tuple(seq(|xs|, i requires 0 <= i < |xs| => Freeze(xs[i])))
    case _ => v
  }

  /** A list is returned as it is: only tuples are thawed. */
  function Thaw(v: Value): Value {
    match v
    case Dict(items) => Dict(seq(|items|, i requires 0 <= i < |items| => Item(items[i].key, Thaw(items[i].value))))
    case Proxy(items) => Dict(seq(|items|, i requires 0 <= i < |items| => Item(items[i].key, Thaw(items[i].value))))
    case Tuple(xs) => List(seq(|xs|, i requires 0 <= i < |xs| => Thaw(xs[i])))
    case _ => v
  }

  /** Immutable all the way down; of an arbitrary object nothing is known. */
  predicate Frozen(v: Value) {
    match v
    case Dict(_) => false
    case List(_) => false
    case Foreign => false
    case Tuple(xs) => forall i :: 0 <= i < |xs| ==> Frozen(xs[i])
    case Proxy(items) => forall i :: 0 <= i < |items| ==> Frozen(items[i].value)
    case _ => true
  }

  /** Built from dictionaries and lists only, as decoded JSON is. */
  predicate Plain(v: Value) {
    match v
    case Proxy(_) => false
    case Tuple(_) => false
    case List(xs) => forall i :: 0 <= i < |xs| ==> Plain(xs[i])
    case Dict(items) => forall i :: 0 <= i < |items| ==> Plain(items[i].value)
    case _ => true
  }

  /** Built from mappings, lists, tuples and scalars, with no arbitrary object inside. */
  predicate Known(v: Value) {
    match v
    case Foreign => false
    case List(xs) => forall i :: 0 <= i < |xs| ==> Known(xs[i])
    case Tuple(xs) => forall i :: 0 <= i < |xs| ==> Known(xs[i])
    case Dict(items) => forall i :: 0 <= i < |items| ==> Known(items[i].value)
    case Proxy(items) => forall i :: 0 <= i < |items| ==> Known(items[i].value)
    case _ => true
  }

  /** The value found by following these positions inward, if there is one. */
  function Descend(v: Value, path: seq<nat>): Option<Value>
    decreases path
  {
    if path == [] then Some(v)
    else
      match v
      case List(xs) => if path[0] < |xs| then Descend(xs[path[0]], path[1..]) else None
      case Tuple(xs) => if path[0] < |xs| then Descend(xs[path[0]], path[1..]) else None
      case Dict(items) => if path[0] < |items| then Descend(items[path[0]].value, path[1..]) else None
      case Proxy(items) => if path[0] < |items| then Descend(items[path[0]].value, path[1..]) else None
      case _ => None
  }

  /** Every value inside, at any depth, passes. */
  ghost predicate Everywhere(v: Value, good: Value -> bool) {
    forall path :: Descend(v, path).Some? ==> good(Descend(v, path).value)
  }

  /** Neither a list nor a dictionary nor an arbitrary object. */
  predicate Unchangeable(v: Value) {
    !v.List? && !v.Dict? && !v.Foreign?
  }

  predicate Encodable(v: Value) {
    && !v.Foreign? && (v.Float? ==> v.f.Finite?)
    && (v.Dict? || v.Proxy? ==> forall i :: 0 <= i < |v.items| ==> v.items[i].key.Text?)
  }

  function Children(v: Value): (cs: seq<Value>)
    ensures forall i :: 0 <= i < |cs| ==> cs[i] < v
  {
    match v
    case List(xs) => xs
    case Tuple(xs) => xs
    case Dict(items) => seq(|items|, i requires 0 <= i < |items| => items[i].value)
    case Proxy(items) => seq(|items|, i requires 0 <= i < |items| => items[i].value)
    case _ => []
  }

  lemma EverywhereStep(v: Value, good: Value -> bool)
    ensures Everywhere(v, good) <==> good(v) && forall i :: 0 <= i < |Children(v)| ==> Everywhere(Children(v)[i], good)
  {
    var cs := Children(v);
    if Everywhere(v, good) {
      assert Descend(v, []) == Some(v);
      forall i, path | 0 <= i < |cs| && Descend(cs[i], path).Some? ensures good(Descend(cs[i], path).value) {
        assert ([i] + path)[1..] == path;
        assert Descend(v, [i] + path) == Descend(cs[i], path);
      }
    }
    if good(v) && forall i :: 0 <= i < |cs| ==> Everywhere(cs[i], good) {
      forall path | Descend(v, path).Some? ensures good(Descend(v, path).value) {
        if path != [] {
          assert Descend(v, path) == Descend(cs[path[0]], path[1..]);
          assert Everywhere(cs[path[0]], good);
        }
      }
    }
  }

  /** Frozen means that nothing inside, however deep, can be changed. */
  lemma {:induction false} FrozenIff(v: Value)
    ensures Frozen(v) <==> Everywhere(v, Unchangeable)
  {
    EverywhereStep(v, Unchangeable);
    var cs := Children(v);
    forall i | 0 <= i < |cs| ensures Frozen(cs[i]) <==> Everywhere(cs[i], Unchangeable) {
      FrozenIff(cs[i]);
    }
    if v.Proxy? {
      assert forall i :: 0 <= i < |cs| ==> cs[i] == v.items[i].value;
    }
  }

  /** Canonical means that every part, however deep, has an encoding: finite numbers, text keys,
      no arbitrary object. */
  lemma {:induction false} CanonicalIff(v: Value)
    ensures Canonical(v) <==> Everywhere(v, Encodable)
  {
    EverywhereStep(v, Encodable);
    var cs := Children(v);
    forall i | 0 <= i < |cs| ensures Canonical(cs[i]) <==> Everywhere(cs[i], Encodable) {
      CanonicalIff(cs[i]);
    }
    if v.Proxy? || v.Dict? {
      assert forall i :: 0 <= i < |cs| ==> cs[i] == v.items[i].value;
    }
  }

  predicate FreezesWell(v: Value) {
    && (Frozen(Freeze(v)) <==> Known(v))
    && (Canonical(Freeze(v)) <==> Canonical(v))
    && (Canonical(v) ==> Known(v))
  }

  /** Freezing makes a value immutable all the way down exactly when it holds no arbitrary object,
      and keeps it canonical or not; a canonical value holds none. */
  lemma {:induction false} FreezeFreezes(v: Value)
    ensures Frozen(Freeze(v)) <==> Known(v)
    ensures Canonical(Freeze(v)) <==> Canonical(v)
    ensures Canonical(v) ==> Frozen(Freeze(v))
  {
    WellFrozen(v);
  }

  lemma {:induction false} WellFrozen(v: Value)
    ensures FreezesWell(v)
  {
    if v.Dict? || v.Proxy? {
      forall i | 0 <= i < |v.items| ensures FreezesWell(v.items[i].value) {
        WellFrozen(v.items[i].value);
      }
      FreezeItems(v);
    } else if v.List? || v.Tuple? {
      forall i | 0 <= i < |v.elements| ensures FreezesWell(v.elements[i]) {
        WellFrozen(v.elements[i]);
      }
      FreezeElements(v);
    }
  }

  lemma FreezeItems(v: Value)
    requires v.Dict? || v.Proxy?
    requires forall i :: 0 <= i < |v.items| ==> FreezesWell(v.items[i].value)
    ensures FreezesWell(v)
  {
    var items, out := v.items, Freeze(v).items;
    assert |out| == |items| && forall i :: 0 <= i < |items| ==> out[i] == Item(items[i].key, Freeze(items[i].value));
    if Canonical(Freeze(v)) {
      forall i | 0 <= i < |items| ensures items[i].key.Text? && Canonical(items[i].value) {
        assert out[i].key.Text? && Canonical(out[i].value);
      }
    }
    if Frozen(Freeze(v)) {
      forall i | 0 <= i < |items| ensures Known(items[i].value) {
        assert Frozen(out[i].value);
      }
    }
  }

  lemma FreezeElements(v: Value)
    requires v.List? || v.Tuple?
    requires forall i :: 0 <= i < |v.elements| ==> FreezesWell(v.elements[i])
    ensures FreezesWell(v)
  {
    var xs, out := v.elements, Freeze(v).elements;
    assert |out| == |xs| && forall i :: 0 <= i < |xs| ==> out[i] == Freeze(xs[i]);
    if Canonical(Freeze(v)) {
      forall i | 0 <= i < |xs| ensures Canonical(xs[i]) {
        assert Canonical(out[i]);
      }
    }
    if Frozen(Freeze(v)) {
      forall i | 0 <= i < |xs| ensures Known(xs[i]) {
        assert Frozen(out[i]);
      }
    }
  }

  /** Thawing a frozen value and freezing it again gives the same value. */
  lemma {:induction false} ThawThenFreeze(v: Value)
    requires Frozen(v)
    ensures Freeze(Thaw(v)) == v
  {
    match v
    case Proxy(items) =>
      forall i | 0 <= i < |items| ensures Freeze(Thaw(items[i].value)) == items[i].value {
        ThawThenFreeze(items[i].value);
      }
      assert Freeze(Thaw(v)).items == items;
    case Tuple(xs) =>
      forall i | 0 <= i < |xs| ensures Freeze(Thaw(xs[i])) == xs[i] {
        ThawThenFreeze(xs[i]);
      }
      assert Freeze(Thaw(v)).elements == xs;
    case _ =>
  }

  /** Freezing decoded JSON and thawing it again gives the same value, item order included. */
  lemma {:induction false} FreezeThenThaw(v: Value)
    requires Plain(v)
    ensures Thaw(Freeze(v)) == v
  {
    match v
    case Dict(items) =>
      forall i | 0 <= i < |items| ensures Thaw(Freeze(items[i].value)) == items[i].value {
        FreezeThenThaw(items[i].value);
      }
      assert Thaw(Freeze(v)).items == items;
    case List(xs) =>
      forall i | 0 <= i < |xs| ensures Thaw(Freeze(xs[i])) == xs[i] {
        FreezeThenThaw(xs[i]);
      }
      assert Thaw(Freeze(v)).elements == xs;
    case _ =>
  }

  /** What thawing does to metadata holding tuples: they come back as lists, so the round trip
      gives back exactly the plain values. */
  lemma {:induction false} ThawedIsPlain(v: Value)
    ensures Plain(Thaw(Freeze(v)))
  {
    match v
    case Dict(items) =>
      forall i | 0 <= i < |items| ensures Plain(Thaw(Freeze(items[i].value))) {
        ThawedIsPlain(items[i].value);
      }
    case Proxy(items) =>
      forall i | 0 <= i < |items| ensures Plain(Thaw(Freeze(items[i].value))) {
        ThawedIsPlain(items[i].value);
      }
    case List(xs) =>
      forall i | 0 <= i < |xs| ensures Plain(Thaw(Freeze(xs[i]))) {
        ThawedIsPlain(xs[i]);
      }
    case Tuple(xs) =>
      forall i | 0 <= i < |xs| ensures Plain(Thaw(Freeze(xs[i]))) {
        ThawedIsPlain(xs[i]);
      }
    case _ =>
  }

  lemma RoundTripIff(v: Value)
    ensures Thaw(Freeze(v)) == v <==> Plain(v)
  {
    ThawedIsPlain(v);
    if Plain(v) {
      FreezeThenThaw(v);
    }
  }

  // ------------------------------------------------------------------- artifacts

  datatype Artifact = Artifact(
    id: string, task: string, agent: string, contentType: string, content: string, domain: string,
    tags: seq<string>, timestamp: Number, constitutionalHash: string, parents: seq<string>, metadata: Value)

  /** The constructor's checks and freezing. */
  function Construct(fields: Artifact): Option<Artifact> {
    if (fields.metadata.Dict? || fields.metadata.Proxy?) && Canonical(fields.metadata) then
      Some(fields.(metadata := Freeze(fields.metadata)))
    else None
  }

  /** What every constructed artifact satisfies. */
  predicate WellFormed(a: Artifact) {
    a.metadata.Proxy? && Frozen(a.metadata) && Canonical(a.metadata)
  }

  function CanonicalDict(a: Artifact): Artifact {
    a.(metadata := Thaw(a.metadata))
  }

  /** The hash of the canonical dictionary, an ideal digest; a timestamp that is not finite has no
      canonical encoding. */
  datatype ContentHash = ContentHash(of: Artifact)

  function HashOf(a: Artifact): Option<ContentHash> {
    if a.timestamp.Finite? then Some(ContentHash(CanonicalDict(a))) else None
  }

  lemma ConstructedIsWellFormed(fields: Artifact)
    requires Construct(fields).Some?
    ensures WellFormed(Construct(fields).value)
  {
    FreezeFreezes(fields.metadata);
  }

  /** Rebuilding an artifact from its canonical dictionary, as every publication and every read
      does, gives an equal artifact. */
  lemma RebuildIsIdentity(a: Artifact)
    requires WellFormed(a)
    ensures Construct(CanonicalDict(a)) == Some(a)
  {
    ThawThenFreeze(a.metadata);
    FreezeFreezes(Thaw(a.metadata));
  }

  /** Two artifacts have the same content hash only if they are equal in every field. */
  lemma HashIsInjective(a: Artifact, b: Artifact)
    requires WellFormed(a) && WellFormed(b) && HashOf(a).Some?
    ensures HashOf(a) == HashOf(b) <==> a == b
  {
    if HashOf(a) == HashOf(b) {
      RebuildIsIdentity(a);
      RebuildIsIdentity(b);
    }
  }
}
