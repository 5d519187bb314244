/**
 * Properties of the registry that relate several calls: add-then-find, duplicate
 * rejection, the case-sensitive collision check, batch partial commit, sequences
 * drained in order, and clear.
 */
module RegistryLaws {
  import opened Options
  import opened Errors
  import opened Schema
  import opened MockRegistry
  import Keys
  import Text
  import Json

  // ---------------------------------------------------------------------------
  // add, then find

  /**
   * A valid single-response mock, added under a free key with a method already in
   * upper case (or none), is found again unchanged by its own request.
   */
  lemma AddThenFind(r: Registry, m: MockDef)
    requires IsValid(m) && m.response.value.Single?
    requires KeyOfRequest(m.request) !in r.entries
    requires UpperVerb(m.request.verb) == m.request.verb
    ensures AddOne(r, m).out == Ok(())
    ensures Find(AddOne(r, m).reg, m.request) == Step(AddOne(r, m).reg, Ok(Some(m)))
  {
    assert StorageKey(m) == KeyOfRequest(m.request);
  }

  /**
   * The same mock with a method that is not upper case is stored, but its own
   * request no longer finds it: the stored key carries the upper-cased method.
   */
  lemma LowerCaseMethodMissesOwnRequest(r: Registry, m: MockDef)
    requires IsValid(m) && m.request.verb.Some?
    requires Text.Upper(m.request.verb.value) != m.request.verb.value
    requires KeyOfRequest(m.request) !in r.entries
    ensures AddOne(r, m).out == Ok(())
    ensures Find(AddOne(r, m).reg, m.request) == Step(AddOne(r, m).reg, Ok(None))
  {
    var p := Keys.Render(m.request.path);
    Keys.SamePathKeyDeterminesMethod(p, m.request.verb.value, Text.Upper(m.request.verb.value));
    assert StorageKey(m) != KeyOfRequest(m.request);
  }

  // ---------------------------------------------------------------------------
  // Duplicates

  /**
   * Re-adding under an occupied key throws AlreadyExists and changes nothing,
   * whatever else differs — even when the new mock would fail validation.
   */
  lemma DuplicateRejected(r: Registry, m: MockDef, m2: MockDef)
    requires Valid(r) && IsValid(m)
    requires KeyOfRequest(m.request) !in r.entries
    requires UpperVerb(m.request.verb) == m.request.verb
    requires m2.request == m.request
    ensures AddOne(AddOne(r, m).reg, m2) == Step(AddOne(r, m).reg, Err(AlreadyExists(AlreadyExistsMessage)))
    ensures AddOne(AddOne(r, m).reg, m2).reg.entries[StorageKey(m)] == m
  {
    assert StorageKey(m) == KeyOfRequest(m.request);
  }

  /**
   * The collision check uses the raw method, the store the upper-cased one: a
   * resubmission whose method differs only in case slips past the check and
   * overwrites the stored mock in place.
   */
  lemma CaseVariantOverwrites(r: Registry, m: MockDef, m2: MockDef)
    requires Valid(r) && IsValid(m) && IsValid(m2)
    requires KeyOfRequest(m.request) !in r.entries
    requires m.request.verb.Some? && Text.Upper(m.request.verb.value) == m.request.verb.value
    requires m2.request.path == m.request.path && m2.request.verb.Some?
    requires m2.request.verb.value != m.request.verb.value
    requires Text.Upper(m2.request.verb.value) == m.request.verb.value
    requires KeyOfRequest(m2.request) !in r.entries
    ensures AddOne(AddOne(r, m).reg, m2).out == Ok(())
    ensures AddOne(AddOne(r, m).reg, m2).reg.entries[StorageKey(m)] == m2
    ensures AddOne(AddOne(r, m).reg, m2).reg.order == AddOne(r, m).reg.order
  {
    var p := Keys.Render(m.request.path);
    Keys.SamePathKeyDeterminesMethod(p, m2.request.verb.value, m.request.verb.value);
    assert StorageKey(m) == KeyOfRequest(m.request) == StorageKey(m2);
    assert KeyOfRequest(m2.request) != KeyOfRequest(m.request);
  }

  /** A rejected mock leaves no trace: nothing is stored for it and the registry is unchanged. */
  lemma InvalidRejected(r: Registry, m: MockDef)
    requires !IsValid(m)
    requires KeyOfRequest(m.request) !in r.entries
    ensures AddOne(r, m).reg == r
    ensures AddOne(r, m).out.Err? && Name(AddOne(r, m).out.error) == "ValidationError"
  {
  }

  // ---------------------------------------------------------------------------
  // Batches

  /** Adding `a + b` is adding `a`, then — unless that threw — adding `b`. */
  lemma {:induction false} AddAllAppend(r: Registry, a: seq<MockDef>, b: seq<MockDef>)
    ensures AddAll(r, a + b) ==
      (var first := AddAll(r, a); if first.out.Err? then first else AddAll(first.reg, b))
    decreases |a|
  {
    if a == [] {
      assert a + b == b;
    } else {
      assert (a + b)[0] == a[0];
      assert (a + b)[1..] == a[1..] + b;
      var one := AddOne(r, a[0]);
      if one.out.Ok? {
        AddAllAppend(one.reg, a[1..], b);
      }
    }
  }

  /**
   * When element `i` of a batch is the first to throw, the call throws that error
   * and the registry keeps exactly what elements `0..i-1` stored.
   */
  lemma BatchStopsAtFirstFailure(r: Registry, ms: seq<MockDef>, i: nat)
    requires i < |ms|
    requires AddAll(r, ms[..i]).out.Ok?
    requires AddOne(AddAll(r, ms[..i]).reg, ms[i]).out.Err?
    ensures AddAll(r, ms).out == AddOne(AddAll(r, ms[..i]).reg, ms[i]).out
    ensures AddAll(r, ms).reg == AddAll(r, ms[..i]).reg
  {
    var tail := [ms[i]] + ms[i + 1..];
    SplitAt(ms, i);
    AddAllAppend(r, ms[..i], tail);
    HeadFails(AddAll(r, ms[..i]).reg, ms[i], ms[i + 1..]);
  }

  lemma SplitAt(ms: seq<MockDef>, i: nat)
    requires i < |ms|
    ensures ms == ms[..i] + ([ms[i]] + ms[i + 1..])
  {
  }

  /** A batch whose first element throws is that element's add, nothing more. */
  lemma HeadFails(r: Registry, m: MockDef, rest: seq<MockDef>)
    requires AddOne(r, m).out.Err?
    ensures AddAll(r, [m] + rest) == AddOne(r, m)
  {
    assert ([m] + rest)[0] == m;
  }

  /** Listing one more key lists one more value, at the end. */
  lemma ValuesAppend(keys: seq<string>, k: string, entries: map<string, MockDef>)
    requires forall x :: x in keys ==> x in entries
    requires k in entries
    ensures Values(keys + [k], entries) == Values(keys, entries) + [entries[k]]
  {
    var l := Values(keys + [k], entries);
    var expected := Values(keys, entries) + [entries[k]];
    forall i | 0 <= i < |l|
      ensures l[i] == expected[i]
    {
      if i < |keys| {
        assert (keys + [k])[i] == keys[i];
      }
    }
  }

  /** Adding a valid mock under a fresh key appends exactly that mock to `all()`. */
  lemma AllAfterFreshAdd(r: Registry, m: MockDef)
    requires Valid(r) && IsValid(m)
    requires KeyOfRequest(m.request) !in r.entries && StorageKey(m) !in r.entries
    ensures AddOne(r, m).out == Ok(())
    ensures All(AddOne(r, m).reg) == All(r) + [m]
  {
    var r2 := AddOne(r, m).reg;
    ValuesAppend(r.order, StorageKey(m), r2.entries);
    assert Values(r.order, r2.entries) == Values(r.order, r.entries);
  }

  /** A two-element batch is the first add followed, if it did not throw, by the second. */
  lemma BatchOfTwoIsSequential(r: Registry, m1: MockDef, m2: MockDef)
    ensures var s1 := AddOne(r, m1);
      Add(r, Batch([m1, m2])) == if s1.out.Err? then s1 else AddOne(s1.reg, m2)
  {
    var s1 := AddOne(r, m1);
    assert [m1, m2][0] == m1 && [m1, m2][1..] == [m2];
    if s1.out.Ok? {
      assert AddAll(s1.reg, [m2]) == AddOne(s1.reg, m2);
    }
  }

  /** A batch of two valid mocks with fresh, distinct keys stores both, in order. */
  lemma BatchOfTwo(r: Registry, m1: MockDef, m2: MockDef)
    requires Valid(r) && IsValid(m1) && IsValid(m2)
    requires UpperVerb(m1.request.verb) == m1.request.verb
    requires UpperVerb(m2.request.verb) == m2.request.verb
    requires KeyOfRequest(m1.request) !in r.entries && KeyOfRequest(m2.request) !in r.entries
    requires KeyOfRequest(m1.request) != KeyOfRequest(m2.request)
    ensures Add(r, Batch([m1, m2])).out == Ok(())
    ensures All(Add(r, Batch([m1, m2])).reg) == All(r) + [m1, m2]
  {
    var k1, k2 := KeyOfRequest(m1.request), KeyOfRequest(m2.request);
    assert StorageKey(m1) == k1 && StorageKey(m2) == k2;
    var s1 := AddOne(r, m1);
    AllAfterFreshAdd(r, m1);
    assert k2 !in s1.reg.entries;
    var s2 := AddOne(s1.reg, m2);
    AllAfterFreshAdd(s1.reg, m2);
    BatchOfTwoIsSequential(r, m1, m2);
    AppendTwo(All(r), m1, m2);
  }

  lemma AppendTwo(a: seq<MockDef>, x: MockDef, y: MockDef)
    ensures a + [x] + [y] == a + [x, y]
  {
  }

  // ---------------------------------------------------------------------------
  // Sequenced responses

  /** `n` successive finds with the same request: the final registry and every result, in order. */
  function FindTimes(r: Registry, req: RequestSpec, n: nat): (Registry, seq<Result<Option<MockDef>>>)
    decreases n
  {
    if n == 0 then (r, [])
    else
      var s := Find(r, req);
      var rest := FindTimes(s.reg, req, n - 1);
      (rest.0, [s.out] + rest.1)
  }

  /**
   * A stored sequence is handed out FIFO: the first `n` finds return its first `n`
   * elements in their original order, and the stored sequence keeps the rest.
   */
  lemma {:induction false} SequenceDrainsInOrder(r: Registry, req: RequestSpec, n: nat)
    requires KeyOfRequest(req) in r.entries
    requires IsSequenced(r.entries[KeyOfRequest(req)])
    requires n <= |r.entries[KeyOfRequest(req)].response.value.specs|
    ensures var stored := r.entries[KeyOfRequest(req)];
      var specs := stored.response.value.specs;
      var (r2, outs) := FindTimes(r, req, n);
      && |outs| == n
      && (forall i :: 0 <= i < n ==> outs[i] == Ok(Some(stored.(response := Some(Single(specs[i]))))))
      && r2.order == r.order
      && r2.entries == r.entries[KeyOfRequest(req) := stored.(response := Some(Sequence(specs[n..])))]
    decreases n
  {
    var key := KeyOfRequest(req);
    var stored := r.entries[key];
    var specs := stored.response.value.specs;
    if n == 0 {
      assert specs[0..] == specs;
      assert r.entries[key := stored] == r.entries;
    } else {
      var s := Find(r, req);
      var next := stored.(response := Some(Sequence(specs[1..])));
      assert s.out == Ok(Some(stored.(response := Some(Single(specs[0])))));
      assert s.reg.entries == r.entries[key := next];
      assert s.reg.entries[key] == next;
      SequenceDrainsInOrder(s.reg, req, n - 1);
      var (r2, outs) := FindTimes(r, req, n);
      var rest := FindTimes(s.reg, req, n - 1);
      assert outs == [s.out] + rest.1;
      forall i | 1 <= i < n
        ensures outs[i] == Ok(Some(stored.(response := Some(Single(specs[i])))))
      {
        assert outs[i] == rest.1[i - 1];
        assert specs[1..][i - 1] == specs[i];
        assert next.(response := Some(Single(specs[i]))) == stored.(response := Some(Single(specs[i])));
      }
      assert specs[1..][n - 1..] == specs[n..];
    }
  }

  /** Once all `N` elements are handed out, the next find throws the exhaustion NotFoundError. */
  lemma SequenceThenExhausted(r: Registry, req: RequestSpec)
    requires KeyOfRequest(req) in r.entries
    requires IsSequenced(r.entries[KeyOfRequest(req)])
    ensures var n := |r.entries[KeyOfRequest(req)].response.value.specs|;
      var drained := FindTimes(r, req, n).0;
      Find(drained, req) == Step(drained, Err(NotFound(ExhaustedMessage)))
  {
    var stored := r.entries[KeyOfRequest(req)];
    var n := |stored.response.value.specs|;
    SequenceDrainsInOrder(r, req, n);
    assert stored.response.value.specs[n..] == [];
  }

  /** An empty response array passes the schema, so an exhausted sequence is reachable straight from add. */
  lemma EmptySequenceReachable(r: Registry, m: MockDef)
    requires RequiredString(m.name) && RequiredString(m.request.path)
    requires m.request.verb.Some? && m.request.verb.value != ""
    requires Text.Upper(m.request.verb.value) == m.request.verb.value
    requires m.response == Some(Sequence([]))
    requires KeyOfRequest(m.request) !in r.entries
    ensures IsValid(m) && AddOne(r, m).out == Ok(())
    ensures Find(AddOne(r, m).reg, m.request) == Step(AddOne(r, m).reg, Err(NotFound(ExhaustedMessage)))
  {
    assert StorageKey(m) == KeyOfRequest(m.request);
  }

  // ---------------------------------------------------------------------------
  // clear

  /** After clear nothing is listed, nothing is found, and clearing again changes nothing. */
  lemma ClearForgetsEverything(r: Registry, req: RequestSpec)
    ensures All(Clear(r)) == []
    ensures Find(Clear(r), req) == Step(Clear(r), Ok(None))
    ensures Clear(Clear(r)) == Clear(r)
  {
  }

  // ---------------------------------------------------------------------------
  // _locate as seen by add and find

  /**
   * The lookup decides both callers: add throws AlreadyExists exactly when it finds
   * something for the mock's raw request, and find returns nothing exactly when it
   * finds nothing.
   */
  lemma LocateDecidesAddAndFind(r: Registry, m: MockDef, req: RequestSpec)
    ensures AddOne(r, m).out == Err(AlreadyExists(AlreadyExistsMessage)) <==> Locate(r, m.request).Some?
    ensures Find(r, req).out == Ok(None) <==> Locate(r, req).None?
  {
  }

  /**
   * A raw key that names a property every object inherits ("__proto__" and the
   * like) can only come from a mock with an empty path or an empty method, which
   * the schema rejects.
   */
  lemma PrototypeKeyNeedsInvalidMock(m: MockDef)
    requires KeyOfRequest(m.request) in Json.ObjectPrototypeNames
    ensures !IsValid(m)
  {
    Keys.PrototypeKeySplit(Keys.Render(m.request.path), Keys.Render(m.request.verb));
  }
}
