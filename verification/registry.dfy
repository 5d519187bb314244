/**
 * The mock registry of src/models/Mock.js: a string-keyed store of submitted mocks
 * with `add`, `find`, `all` and `clear`. The store is a map plus the order in which
 * its keys were first assigned, which is the order `Object.keys` reports them in.
 */
module MockRegistry {
  import opened Options
  import opened Errors
  import opened Schema
  import Keys

  datatype Registry = Registry(order: seq<string>, entries: map<string, MockDef>)

  /** The registry after a call, and what the call returned or threw. */
  datatype Step<+T> = Step(reg: Registry, out: Result<T>)

  /** What `add` accepts: one mock, or an array of them. */
  datatype Submission = One(mock: MockDef) | Batch(mocks: seq<MockDef>)

  const Empty: Registry := Registry([], map[])

  /** The key `_locate` builds from a request exactly as given (src/models/Mock.js:109-112). */
  function KeyOfRequest(req: RequestSpec): string {
    Keys.KeyOf(req.path, req.verb)
  }

  /** The key `add` stores a mock under: its validated request, method upper-cased (src/models/Mock.js:51). */
  function StorageKey(m: MockDef): string {
    Keys.KeyOf(m.request.path, UpperVerb(m.request.verb))
  }

  ghost predicate Distinct(s: seq<string>) {
    forall i, j :: 0 <= i < j < |s| ==> s[i] != s[j]
  }

  /**
   * What every reachable registry satisfies: the key order lists each stored key
   * once, every stored mock passed the schema, and sits under its own storage key.
   */
  ghost predicate Valid(r: Registry) {
    && Distinct(r.order)
    && (forall k :: k in r.order <==> k in r.entries)
    && (forall k :: k in r.entries ==> IsValid(r.entries[k]) && StorageKey(r.entries[k]) == k)
  }

  lemma EmptyValid()
    ensures Valid(Empty)
  {
  }

  // ---------------------------------------------------------------------------
  // Helpers

  /** `_locate`: the stored mock under the request's key, if any. */
  function Locate(r: Registry, req: RequestSpec): (found: Option<MockDef>)
    ensures found.Some? <==> KeyOfRequest(req) in r.entries
    ensures found.Some? ==> found.value == r.entries[KeyOfRequest(req)]
  {
    var key := KeyOfRequest(req);
    if key in r.entries then Some(r.entries[key]) else None
  }

  /** Storing a mock under a key: a new key goes to the end of the key order, an old one keeps its place. */
  function Put(r: Registry, key: string, m: MockDef): (r': Registry)
    ensures r'.entries.Keys == r.entries.Keys + {key} && r'.entries[key] == m
    ensures forall k :: k in r.entries && k != key ==> r'.entries[k] == r.entries[k]
    ensures key in r.entries ==> r'.order == r.order
    ensures key !in r.entries ==> r'.order == r.order + [key]
  {
    Registry(if key in r.entries then r.order else r.order + [key], r.entries[key := m])
  }

  lemma PutValid(r: Registry, key: string, m: MockDef)
    ensures Valid(r) && IsValid(m) && StorageKey(m) == key ==> Valid(Put(r, key, m))
  {
    var r2 := Put(r, key, m);
    if Valid(r) && key !in r.entries {
      assert key !in r.order;
      forall i, j | 0 <= i < j < |r2.order|
        ensures r2.order[i] != r2.order[j]
      {
        if j == |r.order| {
          assert r2.order[i] == r.order[i];
        }
      }
    }
  }

  // ---------------------------------------------------------------------------
  // add (src/models/Mock.js:32-56)

  /**
   * One iteration of `add`'s loop: the collision check on the raw request, then
   * validation, then storing the SUBMITTED mock under the validated request's key.
   */
  function AddOne(r: Registry, m: MockDef): (s: Step<()>)
    ensures KeyOfRequest(m.request) in r.entries ==>
      s == Step(r, Err(AlreadyExists(AlreadyExistsMessage)))
    ensures KeyOfRequest(m.request) !in r.entries && !IsValid(m) ==>
      s.reg == r && s.out.Err? && s.out.error.Validation? && Violates(m, s.out.error.violation)
    ensures KeyOfRequest(m.request) !in r.entries && IsValid(m) ==>
      && s.out == Ok(())
      && s.reg.entries == r.entries[StorageKey(m) := m]
      && s.reg.order == (if StorageKey(m) in r.entries then r.order else r.order + [StorageKey(m)])
    ensures Valid(r) ==> Valid(s.reg)
  {
    if Locate(r, m.request).Some? then
      Step(r, Err(AlreadyExists(AlreadyExistsMessage)))
    else
      match Validate(m)
      case Err(e) => Step(r, Err(e))
      case Ok(validated) =>
        var key := Keys.KeyOf(validated.request.path, validated.request.verb);
        PutValid(r, key, m);
        Step(Put(r, key, m), Ok(()))
  }

  /** `add`'s loop over the elements, in order; the first throw ends the call, earlier stores stay. */
  function AddAll(r: Registry, ms: seq<MockDef>): (s: Step<()>)
    ensures Valid(r) ==> Valid(s.reg)
    ensures r.entries.Keys <= s.reg.entries.Keys
    ensures s.out.Ok? ==> forall i :: 0 <= i < |ms| ==> StorageKey(ms[i]) in s.reg.entries
    decreases |ms|
  {
    if ms == [] then Step(r, Ok(()))
    else
      var first := AddOne(r, ms[0]);
      if first.out.Err? then first
      else
        var rest := AddAll(first.reg, ms[1..]);
        assert forall i :: 1 <= i < |ms| ==> ms[i] == ms[1..][i - 1];
        rest
  }

  /** A single mock is treated as a batch of one. */
  function Elements(sub: Submission): seq<MockDef> {
    match sub
    case One(m) => [m]
    case Batch(ms) => ms
  }

  function Add(r: Registry, sub: Submission): (s: Step<()>)
    ensures Valid(r) ==> Valid(s.reg)
    ensures s.out.Ok? ==> forall m :: m in Elements(sub) ==> StorageKey(m) in s.reg.entries
  {
    AddAll(r, Elements(sub))
  }

  // ---------------------------------------------------------------------------
  // all and clear (src/models/Mock.js:58-70)

  /** The stored mocks under `keys`, in that order. */
  function Values(keys: seq<string>, entries: map<string, MockDef>): (vs: seq<MockDef>)
    requires forall k :: k in keys ==> k in entries
    ensures |vs| == |keys|
    ensures forall i :: 0 <= i < |keys| ==> vs[i] == entries[keys[i]]
  {
    if keys == [] then [] else [entries[keys[0]]] + Values(keys[1..], entries)
  }

  /** A duplicate-free key list has as many elements as the set of its keys. */
  lemma {:induction false} DistinctCount(s: seq<string>)
    requires Distinct(s)
    ensures |set k | k in s| == |s|
  {
    if s != [] {
      DistinctCount(s[1..]);
      assert (set k | k in s) == {s[0]} + (set k | k in s[1..]);
      assert s[0] !in s[1..];
    }
  }

  /** `all()`: every stored mock, one per key, in key order. */
  function All(r: Registry): (vs: seq<MockDef>)
    requires Valid(r)
    ensures |vs| == |r.order| == |r.entries|
    ensures forall i :: 0 <= i < |vs| ==> vs[i] == r.entries[r.order[i]]
    ensures forall k :: k in r.entries ==> r.entries[k] in vs
  {
    var vs := Values(r.order, r.entries);
    DistinctCount(r.order);
    assert r.entries.Keys == set k | k in r.order;
    forall k | k in r.entries
      ensures r.entries[k] in vs
    {
      var i :| 0 <= i < |r.order| && r.order[i] == k;
      assert vs[i] == r.entries[k];
    }
    vs
  }

  /** `clear()`: a fresh, empty store. */
  function Clear(r: Registry): (c: Registry)
    ensures Valid(c)
    ensures c.entries == map[]
  {
    Empty
  }

  // ---------------------------------------------------------------------------
  // find (src/models/Mock.js:72-107)

  /** What `_parseFromResponseArray` returns, and what it leaves behind in the stored mock. */
  datatype Parsed = Parsed(returned: MockDef, remaining: MockDef)

  predicate IsSequenced(m: MockDef) {
    m.response.Some? && m.response.value.Sequence?
  }

  /**
   * A single response is returned as stored. A sequence hands out its first
   * element and keeps the rest: the returned response followed by the remaining
   * sequence is exactly the stored sequence. An empty sequence throws.
   */
  function ParseFromResponseArray(stored: MockDef): (r: Result<Parsed>)
    ensures !IsSequenced(stored) ==> r == Ok(Parsed(stored, stored))
    ensures IsSequenced(stored) && stored.response.value.specs == [] ==>
      r == Err(NotFound(ExhaustedMessage))
    ensures IsSequenced(stored) && stored.response.value.specs != [] ==>
      && r.Ok?
      && r.value.returned.name == stored.name == r.value.remaining.name
      && r.value.returned.request == stored.request == r.value.remaining.request
      && r.value.returned.response.Some? && r.value.returned.response.value.Single?
      && r.value.remaining.response.Some? && r.value.remaining.response.value.Sequence?
      && [r.value.returned.response.value.spec] + r.value.remaining.response.value.specs
         == stored.response.value.specs
  {
    if !IsSequenced(stored) then Ok(Parsed(stored, stored))
    else
      var specs := stored.response.value.specs;
      if |specs| == 0 then Err(NotFound(ExhaustedMessage))
      else
        Ok(Parsed(stored.(response := Some(Single(specs[0]))),
                  stored.(response := Some(Sequence(specs[1..])))))
  }

  /** What `find` can hand to its caller: one valid response. */
  predicate Servable(d: MockDef) {
    d.response.Some? && d.response.value.Single? && SpecValid(d.response.value.spec)
  }

  /**
   * `find(request)`: None when nothing is stored under the request's key; otherwise
   * the parsed mock, the stored sequence (if any) losing its first element.
   */
  function Find(r: Registry, req: RequestSpec): (s: Step<Option<MockDef>>)
    ensures s.reg.order == r.order && s.reg.entries.Keys == r.entries.Keys
    ensures KeyOfRequest(req) !in r.entries ==> s == Step(r, Ok(None))
    ensures KeyOfRequest(req) in r.entries && !IsSequenced(r.entries[KeyOfRequest(req)]) ==>
      s == Step(r, Ok(Some(r.entries[KeyOfRequest(req)])))
    ensures KeyOfRequest(req) in r.entries && r.entries[KeyOfRequest(req)].response == Some(Sequence([])) ==>
      s == Step(r, Err(NotFound(ExhaustedMessage)))
    ensures KeyOfRequest(req) in r.entries ==>
      var stored := r.entries[KeyOfRequest(req)];
      IsSequenced(stored) && stored.response.value.specs != [] ==>
        && s.out == Ok(Some(stored.(response := Some(Single(stored.response.value.specs[0])))))
        && s.reg.entries[KeyOfRequest(req)] == stored.(response := Some(Sequence(stored.response.value.specs[1..])))
    ensures forall k :: k in r.entries && k != KeyOfRequest(req) ==> s.reg.entries[k] == r.entries[k]
    ensures Valid(r) ==> Valid(s.reg)
    ensures Valid(r) && s.out.Ok? && s.out.value.Some? ==> Servable(s.out.value.value)
  {
    match Locate(r, req)
    case None => Step(r, Ok(None))
    case Some(stored) =>
      match ParseFromResponseArray(stored)
      case Err(e) => Step(r, Err(e))
      case Ok(p) =>
        if !IsSequenced(stored) then Step(r, Ok(Some(p.returned)))
        else
          var key := KeyOfRequest(req);
          var specs := stored.response.value.specs;
          assert p.returned == stored.(response := Some(Single(specs[0])));
          assert p.remaining == stored.(response := Some(Sequence(specs[1..])));
          assert Valid(r) ==> IsValid(p.remaining);
          PutValid(r, key, p.remaining);
          Step(Put(r, key, p.remaining), Ok(Some(p.returned)))
  }
}
