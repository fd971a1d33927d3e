/** The interning tables of the arena builder: a dense list of drafts, and buckets of identifiers
    under an arbitrary bucketing function. */
module InternTable {
  import opened Ordering

  datatype Draft<+K, +P> = Draft(identifier: nat, key: K, payload: P)

  datatype Table<+K, +P> = Table(
    drafts: seq<Draft<K, P>>,
    buckets: map<nat, seq<nat>>,
    requests: nat,
    hits: nat,
    unique: nat)

  datatype Interned = Id(id: nat) | Rejected

  function Empty<K, P>(): Table<K, P> { Table([], map[], 0, 0, 0) }

  ghost predicate Holds<K, P>(drafts: seq<Draft<K, P>>, key: K)
  {
    drafts != [] && (drafts[|drafts| - 1].key == key || Holds(drafts[..|drafts| - 1], key))
  }

  lemma {:induction false} HoldsAt<K, P>(drafts: seq<Draft<K, P>>, key: K)
    ensures Holds(drafts, key) <==> exists i :: 0 <= i < |drafts| && drafts[i].key == key
  {
    if drafts != [] {
      var init := drafts[..|drafts| - 1];
      HoldsAt(init, key);
      if Holds(init, key) {
        var i :| 0 <= i < |init| && init[i].key == key;
        assert drafts[i].key == key;
      }
      forall i | 0 <= i < |drafts| && drafts[i].key == key
        ensures Holds(drafts, key)
      {
        if i < |init| {
          assert init[i].key == key;
        }
      }
    }
  }

  /** Identifiers number the drafts, and no key occurs twice. */
  ghost predicate Dense<K, P>(drafts: seq<Draft<K, P>>)
  {
    if drafts == [] then true
    else
      var init, last := drafts[..|drafts| - 1], drafts[|drafts| - 1];
      Dense(init) && last.identifier == |init| && !Holds(init, last.key)
  }

  lemma {:induction false} DenseAt<K, P>(drafts: seq<Draft<K, P>>)
    requires Dense(drafts)
    ensures forall i | 0 <= i < |drafts| :: drafts[i].identifier == i
    ensures forall i, j | 0 <= i < j < |drafts| :: drafts[i].key != drafts[j].key
  {
    if drafts != [] {
      var init, last := drafts[..|drafts| - 1], drafts[|drafts| - 1];
      DenseAt(init);
      HoldsAt(init, last.key);
      forall i, j | 0 <= i < j < |drafts|
        ensures drafts[i].key != drafts[j].key
      {
        assert drafts[i] == init[i];
        if j < |init| {
          assert drafts[j] == init[j];
        }
      }
      forall i | 0 <= i < |drafts|
        ensures drafts[i].identifier == i
      {
        if i < |init| {
          assert drafts[i] == init[i];
        }
      }
    }
  }

  /** The counters account for the drafts. */
  ghost predicate Counted<K, P>(t: Table<K, P>)
  {
    |t.drafts| == t.unique <= U32 && t.hits + t.unique <= t.requests < U64
  }

  predicate InBucket(buckets: map<nat, seq<nat>>, b: nat, id: nat)
  {
    b in buckets && id in buckets[b]
  }

  /** The buckets with one more identifier. */
  function Filed(buckets: map<nat, seq<nat>>, b: nat, id: nat): map<nat, seq<nat>>
  {
    buckets[b := (if b in buckets then buckets[b] else []) + [id]]
  }

  /** The buckets of the drafts, filed in order. */
  ghost function Buckets<K, P>(drafts: seq<Draft<K, P>>, bucket: K -> nat): map<nat, seq<nat>>
  {
    if drafts == [] then map[]
    else
      var init, last := drafts[..|drafts| - 1], drafts[|drafts| - 1];
      Filed(Buckets(init, bucket), bucket(last.key), |init|)
  }

  /** Every draft is in its bucket, and the buckets hold nothing else. */
  lemma {:induction false} BucketsHold<K, P>(drafts: seq<Draft<K, P>>, bucket: K -> nat)
    ensures var buckets := Buckets(drafts, bucket);
      && (forall i: nat | i < |drafts| :: InBucket(buckets, bucket(drafts[i].key), i))
      && (forall b: nat, i: nat | InBucket(buckets, b, i) :: i < |drafts| && bucket(drafts[i].key) == b)
  {
    if drafts != [] {
      var init, last := drafts[..|drafts| - 1], drafts[|drafts| - 1];
      BucketsHold(init, bucket);
      var was, now, b := Buckets(init, bucket), Buckets(drafts, bucket), bucket(last.key);
      assert |init| in now[b];
      forall i: nat | i < |drafts|
        ensures InBucket(now, bucket(drafts[i].key), i)
      {
        if i < |init| {
          assert InBucket(was, bucket(init[i].key), i);
        }
      }
      forall c: nat, i: nat | InBucket(now, c, i)
        ensures i < |drafts| && bucket(drafts[i].key) == c
      {
        if i != |init| || c != b {
          assert InBucket(was, c, i);
        }
      }
    }
  }

  /** The bucket scan: full keys decide, so the bucketing function does not matter. */
  method Lookup<K(==), P>(drafts: seq<Draft<K, P>>, buckets: map<nat, seq<nat>>, bucket: K -> nat, key: K)
    returns (found: Option<nat>)
    requires buckets == Buckets(drafts, bucket)
    ensures found.Some? ==> found.value < |drafts| && drafts[found.value].key == key
    ensures found.Some? <==> Holds(drafts, key)
  {
    BucketsHold(drafts, bucket);
    HoldsAt(drafts, key);
    var b := bucket(key);
    if b in buckets {
      var ids := buckets[b];
      for k := 0 to |ids|
        invariant forall j | 0 <= j < k :: ids[j] < |drafts| && drafts[ids[j]].key != key
      {
        assert InBucket(buckets, b, ids[k]);
        if drafts[ids[k]].key == key {
          return Some(ids[k]);
        }
      }
    }
    forall i: nat | i < |drafts|
      ensures drafts[i].key != key
    {
      assert InBucket(buckets, bucket(drafts[i].key), i);
    }
    return None;
  }

  /** The linear scan of the document table. */
  method Search<K(==), P>(drafts: seq<Draft<K, P>>, key: K) returns (found: Option<nat>)
    requires Dense(drafts)
    ensures found.Some? ==> found.value < |drafts| && drafts[found.value].key == key
    ensures found.Some? <==> Holds(drafts, key)
  {
    DenseAt(drafts);
    HoldsAt(drafts, key);
    for i := 0 to |drafts|
      invariant forall j | 0 <= j < i :: drafts[j].key != key
    {
      if drafts[i].key == key {
        return Some(drafts[i].identifier);
      }
    }
    return None;
  }

  function Requested<K, P>(t: Table<K, P>): Table<K, P> { t.(requests := t.requests + 1) }

  function Hit<K, P>(t: Table<K, P>): Table<K, P> { t.(hits := t.hits + 1) }

  function Next<K, P>(drafts: seq<Draft<K, P>>, key: K, payload: P): seq<Draft<K, P>>
  {
    drafts + [Draft(|drafts|, key, payload)]
  }

  function Insert<K, P>(t: Table<K, P>, bucket: K -> nat, key: K, payload: P): Table<K, P>
  {
    t.(drafts := Next(t.drafts, key, payload),
       buckets := Filed(t.buckets, bucket(key), |t.drafts|),
       unique := t.unique + 1)
  }

  lemma NextKeeps<K, P>(drafts: seq<Draft<K, P>>, bucket: K -> nat, key: K, payload: P)
    requires Dense(drafts) && !Holds(drafts, key)
    ensures Dense(Next(drafts, key, payload))
    ensures Buckets(Next(drafts, key, payload), bucket) == Filed(Buckets(drafts, bucket), bucket(key), |drafts|)
  {
    assert Next(drafts, key, payload)[..|drafts|] == drafts;
  }

  // ----- Runs

  /** What one call does to the drafts: a known key answers with its identifier, a new one is
      appended, and a refused call changes nothing. */
  ghost predicate Interns<K, P>(was: seq<Draft<K, P>>, now: seq<Draft<K, P>>, key: K, result: Interned)
  {
    match result
    case Rejected => now == was
    case Id(i) =>
      && i < |now| && now[i].key == key
      && if Holds(was, key) then now == was else i == |was| && |now| == i + 1 && now[..i] == was
  }

  datatype Call<+K> = Call(key: K, result: Interned) | Elsewhere

  ghost predicate Step<K, P>(was: seq<Draft<K, P>>, now: seq<Draft<K, P>>, call: Call<K>)
  {
    match call
    case Call(key, result) => Interns(was, now, key, result)
    case Elsewhere => now == was
  }

  /** A run: the drafts before, between and after some calls. */
  ghost predicate IsRun<K, P>(states: seq<seq<Draft<K, P>>>, calls: seq<Call<K>>)
  {
    && |states| == |calls| + 1
    && (forall i | 0 <= i < |states| :: Dense(states[i]))
    && (forall i {:trigger calls[i]} | 0 <= i < |calls| :: Step(states[i], states[i + 1], calls[i]))
  }

  lemma StepExtends<K, P>(was: seq<Draft<K, P>>, now: seq<Draft<K, P>>, call: Call<K>)
    requires Step(was, now, call)
    ensures was <= now
  {
  }

  lemma {:induction false} RunExtends<K, P>(states: seq<seq<Draft<K, P>>>, calls: seq<Call<K>>, i: nat, j: nat)
    requires IsRun(states, calls) && i <= j < |states|
    ensures states[i] <= states[j]
    decreases j - i
  {
    if i < j {
      RunExtends(states, calls, i, j - 1);
      StepExtends(states[j - 1], states[j], calls[j - 1]);
    }
  }

  /** In every run, two successful calls return the same identifier exactly when their keys are
      equal: the table is a plain map from keys to identifiers. */
  lemma RunsAreMaps<K, P>(states: seq<seq<Draft<K, P>>>, calls: seq<Call<K>>, i: nat, j: nat)
    requires IsRun(states, calls) && i <= j < |calls|
    requires calls[i].Call? && calls[i].result.Id? && calls[j].Call? && calls[j].result.Id?
    ensures calls[i].result == calls[j].result <==> calls[i].key == calls[j].key
  {
    assert Step(states[i], states[i + 1], calls[i]) && Step(states[j], states[j + 1], calls[j]);
    RunExtends(states, calls, i + 1, j + 1);
    var last := states[j + 1];
    assert last[calls[i].result.id] == states[i + 1][calls[i].result.id];
    DenseAt(last);
  }
}
