/**
  Vector clocks as the service stores and compares them.

  A stored clock is a JSON text. Only two things about a text matter to the code: whether it equals
  another text, and what it parses to. `RawClock` keeps exactly these: the spelling and the content.
 */
module VectorClock {
  import opened Wrappers
  import opened Text

  const MAX_INT64: int := 0x7FFF_FFFF_FFFF_FFFF
  const MIN_INT64: int := -0x8000_0000_0000_0000

  type Entries = map<string, int>

  /** `Null` is the JSON text `null`, which Go parses to a nil map: readable, but not writable. */
  datatype Content = Malformed | Null | Object(entries: Entries)

  datatype RawClock = RawClock(spelling: string, content: Content)

  datatype Relation = Equal | Newer | Older | Conflict

  const CANONICAL := "canonical"

  /** `json.Marshal` of a map. */
  function Encode(m: Entries): RawClock {
    RawClock(CANONICAL, Object(m))
  }

  predicate ValidEntries(m: Entries) {
    forall key | key in m :: !Blank(key) && 0 <= m[key] <= MAX_INT64
  }

  /** The empty text is not JSON. */
  predicate Readable(raw: RawClock) {
    raw.spelling != "" && !raw.content.Malformed?
  }

  predicate Parses(raw: RawClock) {
    Readable(raw) && (raw.content.Object? ==> ValidEntries(raw.content.entries))
  }

  function Clock(raw: RawClock): Entries {
    if raw.content.Object? then raw.content.entries else map[]
  }

  /** A missing entry reads as zero, as a Go map lookup does. */
  function At(m: Entries, key: string): int {
    if key in m then m[key] else 0
  }

  ghost predicate AtMost(a: Entries, b: Entries) {
    forall key :: At(a, key) <= At(b, key)
  }

  /** The reference definition: the relation of two clocks in the pointwise order. */
  ghost function Relate(incoming: Entries, current: Entries): Relation {
    if AtMost(incoming, current) then
      if AtMost(current, incoming) then Equal else Older
    else
      if AtMost(current, incoming) then Newer else Conflict
  }

  ghost predicate Leq(a: RawClock, b: RawClock) {
    AtMost(Clock(a), Clock(b))
  }

  ghost predicate StrictlyNewer(a: RawClock, b: RawClock) {
    Relate(Clock(a), Clock(b)) == Newer
  }

  ghost predicate HasPositiveEntry(raw: RawClock) {
    exists key :: At(Clock(raw), key) > 0
  }

  ghost function Compare(incoming: RawClock, current: RawClock): Result<Relation> {
    if Parses(incoming) && Parses(current)
    then Ok(Relate(Clock(incoming), Clock(current)))
    else Err(MalformedClock)
  }

  /** The entry-wise maximum, with exactly the keys the merge loop leaves behind. */
  function Join(a: Entries, b: Entries): Entries {
    map key | key in a.Keys + b.Keys && (key in a || At(b, key) > 0)
      :: if At(a, key) >= At(b, key) then At(a, key) else At(b, key)
  }

  ghost function Greater(a: Entries, b: Entries, useB: bool, key: string): int {
    if useB && At(b, key) > At(a, key) then At(b, key) else At(a, key)
  }

  function Merge(left: RawClock, right: RawClock): Result<RawClock> {
    if !Parses(left) || !Parses(right) then Err(MalformedClock)
    else if left.content.Null? then
      if exists key :: key in Clock(right) && Clock(right)[key] > 0 then Err(NilMapWrite)
      else Ok(RawClock("null", Null))
    else Ok(Encode(Join(Clock(left), Clock(right))))
  }

  /** Go's int64 addition of one. */
  function Increment(n: int): int {
    if n == MAX_INT64 then MIN_INT64 else n + 1
  }

  function BumpedEntry(n: int, minimum: int): int {
    if minimum > Increment(n) then minimum else Increment(n)
  }

  function Bump(raw: RawClock, actor: string, minimum: int): Result<RawClock> {
    if !Parses(raw) then Err(MalformedClock)
    else if Blank(actor) then Err(BlankActor)
    else if raw.content.Null? then Err(NilMapWrite)
    else
      var key := Trim(actor);
      Ok(Encode(Clock(raw)[key := BumpedEntry(At(Clock(raw), key), minimum)]))
  }

  // ---------------------------------------------------------------- the loops of the service

  method ParseVectorClockJson(raw: RawClock) returns (r: Result<Entries>)
    ensures r == if Parses(raw) then Ok(Clock(raw)) else Err(MalformedClock)
    ensures r.Ok? <==>
      && raw.spelling != "" && raw.content != Malformed
      && forall key | key in Clock(raw) :: Trim(key) != "" && 0 <= Clock(raw)[key] <= 0x7FFF_FFFF_FFFF_FFFF
  {
    if !Readable(raw) {
      return Err(MalformedClock);
    }
    var parsed := Clock(raw);
    var pending := parsed.Keys;
    while pending != {}
      invariant pending <= parsed.Keys
      invariant forall key | key in parsed.Keys - pending :: !Blank(key) && 0 <= parsed[key] <= MAX_INT64
      decreases pending
    {
      var key :| key in pending;
      if Blank(key) || parsed[key] < 0 || parsed[key] > MAX_INT64 {
        return Err(MalformedClock);
      }
      pending := pending - {key};
    }
    return Ok(parsed);
  }

  /** The comparison loop decides exactly the pointwise order. */
  method CompareVectorClock(incomingJson: RawClock, currentJson: RawClock) returns (r: Result<Relation>)
    ensures r == Compare(incomingJson, currentJson)
  {
    var left := ParseVectorClockJson(incomingJson);
    if left.Err? {
      return Err(MalformedClock);
    }
    var right := ParseVectorClockJson(currentJson);
    if right.Err? {
      return Err(MalformedClock);
    }
    var incoming, current := left.value, right.value;
    var allKeys := incoming.Keys + current.Keys;
    var pending := allKeys;
    var incomingGreater, currentGreater := false, false;
    while pending != {}
      invariant pending <= allKeys
      invariant incomingGreater <==> exists key :: key in allKeys - pending && At(incoming, key) > At(current, key)
      invariant currentGreater <==> exists key :: key in allKeys - pending && At(incoming, key) < At(current, key)
      decreases pending
    {
      var key :| key in pending;
      ghost var before := allKeys - pending;
      pending := pending - {key};
      assert allKeys - pending == before + {key};
      if At(incoming, key) > At(current, key) {
        incomingGreater := true;
      }
      if At(incoming, key) < At(current, key) {
        currentGreater := true;
      }
    }
    assert incomingGreater <==> !AtMost(incoming, current);
    assert currentGreater <==> !AtMost(current, incoming);
    return Ok(
      if !incomingGreater && !currentGreater then Equal
      else if incomingGreater && !currentGreater then Newer
      else if !incomingGreater && currentGreater then Older
      else Conflict);
  }

  method MergeVectorClocks(leftJson: RawClock, rightJson: RawClock) returns (r: Result<RawClock>)
    ensures r == Merge(leftJson, rightJson)
  {
    var l := ParseVectorClockJson(leftJson);
    if l.Err? {
      return Err(MalformedClock);
    }
    var other := ParseVectorClockJson(rightJson);
    if other.Err? {
      return Err(MalformedClock);
    }
    var base, right := l.value, other.value;
    var left := base;
    var pending := right.Keys;
    while pending != {}
      invariant pending <= right.Keys
      invariant leftJson.content.Null? ==> left == map[] && forall key | key in right.Keys - pending :: right[key] <= 0
      invariant forall key :: key in left <==> key in base || (key in right.Keys - pending && right[key] > 0)
      invariant forall key | key in left :: left[key] == Greater(base, right, key in right.Keys - pending, key)
      decreases pending
    {
      var key :| key in pending;
      if right[key] > At(left, key) {
        if leftJson.content.Null? {
          return Err(NilMapWrite);
        }
        left := left[key := right[key]];
      }
      pending := pending - {key};
    }
    if leftJson.content.Null? {
      return Ok(RawClock("null", Null));
    }
    assert left == Join(base, right);
    return Ok(Encode(left));
  }

  method BumpVectorClock(raw: RawClock, actor: string, minimum: int) returns (r: Result<RawClock>)
    ensures r == Bump(raw, actor, minimum)
  {
    var parsed := ParseVectorClockJson(raw);
    if parsed.Err? {
      return Err(MalformedClock);
    }
    var key := Trim(actor);
    if key == "" {
      return Err(BlankActor);
    }
    var next := Increment(At(parsed.value, key));
    if minimum > next {
      next := minimum;
    }
    if raw.content.Null? {
      return Err(NilMapWrite);
    }
    return Ok(Encode(parsed.value[key := next]));
  }

  // ---------------------------------------------------------------- the lattice

  /** Newer and older are converses, equal and conflict are symmetric. */
  lemma RelateConverse(a: Entries, b: Entries)
    ensures Relate(a, b) == Newer <==> Relate(b, a) == Older
    ensures Relate(a, b) == Equal <==> Relate(b, a) == Equal
    ensures Relate(a, b) == Conflict <==> Relate(b, a) == Conflict
  {
  }

  lemma AtMostTransitive(a: Entries, b: Entries, c: Entries)
    requires AtMost(a, b) && AtMost(b, c)
    ensures AtMost(a, c)
  {
    forall key ensures At(a, key) <= At(c, key) {
      assert At(a, key) <= At(b, key) <= At(c, key);
    }
  }

  lemma NewerTransitive(a: Entries, b: Entries, c: Entries)
    requires AtMost(a, b) && AtMost(b, c)
    requires Relate(b, a) == Newer || Relate(c, b) == Newer
    ensures Relate(c, a) == Newer
  {
    AtMostTransitive(a, b, c);
    if AtMost(c, a) {
      AtMostTransitive(c, a, b);
      AtMostTransitive(b, c, a);
      assert false;
    }
  }

  /** Merging yields the least upper bound; merging conflicting clocks is strictly newer than both. */
  lemma MergeIsJoin(left: RawClock, right: RawClock, merged: RawClock)
    requires Merge(left, right) == Ok(merged)
    ensures Parses(merged) && Leq(left, merged) && Leq(right, merged)
    ensures forall bound :: Leq(left, bound) && Leq(right, bound) ==> Leq(merged, bound)
    ensures Compare(left, right) == Ok(Conflict) ==> StrictlyNewer(merged, left) && StrictlyNewer(merged, right)
  {
    var a, b, m := Clock(left), Clock(right), Clock(merged);
    forall key ensures At(m, key) == if At(a, key) >= At(b, key) then At(a, key) else At(b, key) {
    }
    forall bound | Leq(left, bound) && Leq(right, bound) ensures Leq(merged, bound) {
      forall key ensures At(m, key) <= At(Clock(bound), key) {
        assert At(a, key) <= At(Clock(bound), key) && At(b, key) <= At(Clock(bound), key);
      }
    }
    if Compare(left, right) == Ok(Conflict) {
      assert AtMost(a, m) && AtMost(b, m);
      var k :| At(a, k) > At(b, k);
      var l :| At(b, l) > At(a, l);
      assert At(m, k) > At(b, k) && At(m, l) > At(a, l);
    }
  }

  /** A conflict always has something to write into: the merge never hits the nil map. */
  lemma ConflictMerges(left: RawClock, right: RawClock)
    requires Compare(left, right) == Ok(Conflict)
    ensures Merge(left, right).Ok?
    ensures HasPositiveEntry(Merge(left, right).value)
  {
    var key :| At(Clock(left), key) > At(Clock(right), key);
    assert At(Join(Clock(left), Clock(right)), key) > 0;
    assert At(Clock(Merge(left, right).value), key) > 0;
  }

  /** A strictly newer clock has a positive entry. */
  lemma NewerIsPositive(a: RawClock, b: RawClock)
    requires Parses(a) && Parses(b)
    requires StrictlyNewer(a, b)
    ensures HasPositiveEntry(a)
  {
    var key :| At(Clock(a), key) > At(Clock(b), key);
    assert At(Clock(a), key) > 0;
  }

  /**
    Bumping touches the actor's entry only, and advances the clock exactly when that entry is below
    the largest int64: above it the increment wraps around and the clock falls back.
   */
  lemma BumpAdvances(raw: RawClock, actor: string, minimum: int, bumped: RawClock)
    requires Bump(raw, actor, minimum) == Ok(bumped)
    requires MIN_INT64 <= minimum <= MAX_INT64
    ensures forall key :: key != Trim(actor) ==> At(Clock(bumped), key) == At(Clock(raw), key)
    ensures StrictlyNewer(bumped, raw) <==> At(Clock(raw), Trim(actor)) < MAX_INT64
    ensures At(Clock(raw), Trim(actor)) < MAX_INT64 ==> Parses(bumped) && At(Clock(bumped), Trim(actor)) >= minimum
    ensures At(Clock(raw), Trim(actor)) < MAX_INT64 ==>
      At(Clock(bumped), Trim(actor)) in {At(Clock(raw), Trim(actor)) + 1, minimum}
  {
    var key := Trim(actor);
    var was, now := Clock(raw), Clock(bumped);
    assert At(now, key) == BumpedEntry(At(was, key), minimum);
    if At(was, key) < MAX_INT64 {
      assert At(now, key) > At(was, key);
      assert AtMost(was, now);
      TrimOfTrim(actor);
    } else if AtMost(was, now) {
      assert AtMost(now, was);
    }
  }
}
