/** The lot that parks half-finished sign-in handshakes between the HTTP legs of one exchange. */
module HandshakeParking {
  import opened Wrappers

  /** One TCP connection, named by the client's host and port; only identity matters here. */
  type Connection = nat
  type Handshake = nat

  datatype Parked = Parked(key: Connection, handshake: Handshake, deadline: real)

  /** `entries` in the order the dictionary holds them; `closed` is every handshake the lot has closed. */
  datatype Lot = Lot(entries: seq<Parked>, closed: seq<Handshake>)

  predicate DistinctKeys(entries: seq<Parked>) {
    forall i, j :: 0 <= i < j < |entries| ==> entries[i].key != entries[j].key
  }

  function RemoveAt(entries: seq<Parked>, i: nat): seq<Parked>
    requires i < |entries|
  {
    entries[..i] + entries[i + 1..]
  }

  function Live(entries: seq<Parked>, now: real): seq<Parked> {
    if entries == [] then []
    else
      var last := |entries| - 1;
      Live(entries[..last], now) + if entries[last].deadline <= now then [] else [entries[last]]
  }

  function ExpiredHandshakes(entries: seq<Parked>, now: real): seq<Handshake> {
    if entries == [] then []
    else
      var last := |entries| - 1;
      ExpiredHandshakes(entries[..last], now)
      + if entries[last].deadline <= now then [entries[last].handshake] else []
  }

  lemma SweepOneMore(entries: seq<Parked>, n: nat, now: real)
    requires n < |entries|
    ensures Live(entries[..n + 1], now)
         == Live(entries[..n], now) + if entries[n].deadline <= now then [] else [entries[n]]
    ensures ExpiredHandshakes(entries[..n + 1], now)
         == ExpiredHandshakes(entries[..n], now) + if entries[n].deadline <= now then [entries[n].handshake] else []
  {
    assert entries[..n + 1][..n] == entries[..n];
  }

  /** The first entry with the earliest deadline. */
  function Oldest(entries: seq<Parked>): (i: nat)
    requires entries != []
    ensures i < |entries|
  {
    if |entries| == 1 then 0
    else
      var k := 1 + Oldest(entries[1..]);
      if entries[0].deadline <= entries[k].deadline then 0 else k
  }

  lemma {:induction false} OldestIsTheFirstMinimum(entries: seq<Parked>)
    requires entries != []
    ensures var i := Oldest(entries);
            && (forall j :: 0 <= j < |entries| ==> entries[i].deadline <= entries[j].deadline)
            && (forall j :: 0 <= j < i ==> entries[i].deadline < entries[j].deadline)
    decreases |entries|
  {
    if |entries| > 1 {
      OldestIsTheFirstMinimum(entries[1..]);
      assert forall j :: 1 <= j < |entries| ==> entries[j] == entries[1..][j - 1];
    }
  }

  function Shrunk(lot: Lot, max: nat): Lot
    requires max >= 1
    decreases |lot.entries|
  {
    if |lot.entries| < max then lot
    else
      var i := Oldest(lot.entries);
      Shrunk(Lot(RemoveAt(lot.entries, i), lot.closed + [lot.entries[i].handshake]), max)
  }

  function Evicted(lot: Lot, now: real, max: nat): Lot
    requires max >= 1
  {
    Shrunk(Lot(Live(lot.entries, now), lot.closed + ExpiredHandshakes(lot.entries, now)), max)
  }

  function IndexOf(entries: seq<Parked>, key: Connection): (i: Option<nat>)
    ensures i.Some? ==> i.value < |entries| && entries[i.value].key == key
  {
    if entries == [] then None
    else
      var last := |entries| - 1;
      if entries[last].key == key then Some(last) else IndexOf(entries[..last], key)
  }

  lemma {:induction false} IndexOfFindsThePlace(entries: seq<Parked>, i: nat)
    requires i < |entries| && DistinctKeys(entries)
    ensures IndexOf(entries, entries[i].key) == Some(i)
    decreases |entries|
  {
    var last := |entries| - 1;
    if i < last {
      assert entries[i].key != entries[last].key;
      IndexOfFindsThePlace(entries[..last], i);
    }
  }

  lemma {:induction false} IndexOfMisses(entries: seq<Parked>, key: Connection)
    ensures IndexOf(entries, key) == None <==> forall i :: 0 <= i < |entries| ==> entries[i].key != key
    decreases |entries|
  {
    if entries != [] {
      IndexOfMisses(entries[..|entries| - 1], key);
    }
  }

  function Extract(lot: Lot, key: Connection): (Lot, Option<Handshake>) {
    match IndexOf(lot.entries, key)
    case None => (lot, None)
    case Some(i) => (lot.(entries := RemoveAt(lot.entries, i)), Some(lot.entries[i].handshake))
  }

  function Pop(lot: Lot, key: Connection, now: real, max: nat): (Lot, Option<Handshake>)
    requires max >= 1
  {
    Extract(Evicted(lot, now, max), key)
  }

  /** A handshake parked again under its connection replaces, and closes, the one there. */
  function Insert(lot: Lot, parked: Parked): Lot {
    match Extract(lot, parked.key)
    case (rest, None) => Lot(rest.entries + [parked], rest.closed)
    case (rest, Some(previous)) => Lot(rest.entries + [parked], rest.closed + [previous])
  }

  /** `now` is the sweep's clock reading, `deadline` the later reading plus the time to live. */
  function Put(lot: Lot, key: Connection, handshake: Handshake, now: real, deadline: real, max: nat): Lot
    requires max >= 1
  {
    Insert(Evicted(lot, now, max), Parked(key, handshake, deadline))
  }

  // ---- the lot as the program keeps it --------------------------------------------------------

  class PendingHandshakes {
    const ttl: real
    const max: nat
    var entries: seq<Parked>
    var closed: seq<Handshake>

    function Value(): Lot
      reads this
    {
      Lot(entries, closed)
    }

    constructor (ttl: real, max: nat)
      ensures this.ttl == ttl && this.max == max && Value() == Lot([], [])
    {
      this.ttl, this.max := ttl, max;
      entries, closed := [], [];
    }

    method DropExpired(now: real)
      modifies this
      ensures entries == Live(old(entries), now)
      ensures closed == old(closed) + ExpiredHandshakes(old(entries), now)
    {
      var was, kept, expired := entries, [], [];
      for n := 0 to |was|
        invariant closed == old(closed)
        invariant kept == Live(was[..n], now)
        invariant expired == ExpiredHandshakes(was[..n], now)
      {
        SweepOneMore(was, n, now);
        if was[n].deadline <= now {
          expired := expired + [was[n].handshake];
        } else {
          kept := kept + [was[n]];
        }
      }
      assert was[..|was|] == was;
      entries, closed := kept, closed + expired;
    }

    method Evict(now: real)
      requires max >= 1
      modifies this
      ensures Value() == Evicted(old(Value()), now, max)
    {
      DropExpired(now);
      ghost var start := Value();
      while |entries| >= max
        invariant Shrunk(Value(), max) == Shrunk(start, max)
        decreases |entries|
      {
        var i := Oldest(entries);
        closed := closed + [entries[i].handshake];
        entries := RemoveAt(entries, i);
      }
    }

    method PopHandshake(key: Connection, now: real) returns (handshake: Option<Handshake>)
      requires max >= 1
      modifies this
      ensures (Value(), handshake) == Pop(old(Value()), key, now, max)
    {
      Evict(now);
      var found := IndexOf(entries, key);
      if found == None {
        return None;
      }
      handshake := Some(entries[found.value].handshake);
      entries := RemoveAt(entries, found.value);
    }

    method PutHandshake(key: Connection, handshake: Handshake, now: real, later: real)
      requires max >= 1
      modifies this
      ensures Value() == Put(old(Value()), key, handshake, now, later + ttl, max)
    {
      Evict(now);
      var found := IndexOf(entries, key);
      if found.Some? {
        var previous := entries[found.value].handshake;
        entries := RemoveAt(entries, found.value);
        entries := entries + [Parked(key, handshake, later + ttl)];
        closed := closed + [previous];
      } else {
        entries := entries + [Parked(key, handshake, later + ttl)];
      }
    }
  }

  // ---- conservation ---------------------------------------------------------------------------

  function HandshakesOf(entries: seq<Parked>): seq<Handshake> {
    if entries == [] then [] else HandshakesOf(entries[..|entries| - 1]) + [entries[|entries| - 1].handshake]
  }

  lemma {:induction false} HandshakesOfConcatenation(a: seq<Parked>, b: seq<Parked>)
    ensures HandshakesOf(a + b) == HandshakesOf(a) + HandshakesOf(b)
    decreases |b|
  {
    if b == [] {
      assert a + b == a;
    } else {
      assert (a + b)[..|a + b| - 1] == a + b[..|b| - 1];
      HandshakesOfConcatenation(a, b[..|b| - 1]);
    }
  }

  lemma HandshakesOfOne(parked: Parked)
    ensures HandshakesOf([parked]) == [parked.handshake]
  {
    assert HandshakesOf([parked][..0]) == [];
  }

  function Times(s: seq<Handshake>, x: Handshake): nat {
    if s == [] then 0 else Times(s[..|s| - 1], x) + if s[|s| - 1] == x then 1 else 0
  }

  lemma {:induction false} TimesInConcatenation(a: seq<Handshake>, b: seq<Handshake>, x: Handshake)
    ensures Times(a + b, x) == Times(a, x) + Times(b, x)
    decreases |b|
  {
    if b == [] {
      assert a + b == a;
    } else {
      assert (a + b)[..|a + b| - 1] == a + b[..|b| - 1];
      TimesInConcatenation(a, b[..|b| - 1], x);
    }
  }

  /** How many times `x` is parked or closed: in the lot's hands, either way. */
  function Held(lot: Lot, x: Handshake): nat {
    Times(HandshakesOf(lot.entries), x) + Times(lot.closed, x)
  }

  lemma RemovalLosesOne(entries: seq<Parked>, i: nat, x: Handshake)
    requires i < |entries|
    ensures Times(HandshakesOf(entries), x)
         == Times(HandshakesOf(RemoveAt(entries, i)), x) + Times([entries[i].handshake], x)
  {
    var (before, after) := (entries[..i], entries[i + 1..]);
    var (a, one, b) := (HandshakesOf(before), [entries[i].handshake], HandshakesOf(after));
    assert entries == before + ([entries[i]] + after);
    HandshakesOfConcatenation(before, [entries[i]] + after);
    HandshakesOfConcatenation([entries[i]], after);
    HandshakesOfConcatenation(before, after);
    HandshakesOfOne(entries[i]);
    TimesInConcatenation(a, one + b, x);
    TimesInConcatenation(one, b, x);
    TimesInConcatenation(a, b, x);
  }

  lemma {:induction false} SweepConserves(entries: seq<Parked>, now: real, x: Handshake)
    ensures Times(HandshakesOf(entries), x)
         == Times(HandshakesOf(Live(entries, now)), x) + Times(ExpiredHandshakes(entries, now), x)
    decreases |entries|
  {
    if entries != [] {
      var last := |entries| - 1;
      var one := [entries[last].handshake];
      SweepConserves(entries[..last], now, x);
      TimesInConcatenation(HandshakesOf(entries[..last]), one, x);
      if entries[last].deadline <= now {
        assert Live(entries, now) == Live(entries[..last], now);
        TimesInConcatenation(ExpiredHandshakes(entries[..last], now), one, x);
      } else {
        assert ExpiredHandshakes(entries, now) == ExpiredHandshakes(entries[..last], now);
        HandshakesOfConcatenation(Live(entries[..last], now), [entries[last]]);
        HandshakesOfOne(entries[last]);
        TimesInConcatenation(HandshakesOf(Live(entries[..last], now)), one, x);
      }
    }
  }

  lemma {:induction false} ShrinkingConserves(lot: Lot, max: nat, x: Handshake)
    requires max >= 1
    ensures Held(Shrunk(lot, max), x) == Held(lot, x)
    decreases |lot.entries|
  {
    if |lot.entries| >= max {
      var i := Oldest(lot.entries);
      var one := [lot.entries[i].handshake];
      RemovalLosesOne(lot.entries, i, x);
      TimesInConcatenation(lot.closed, one, x);
      ShrinkingConserves(Lot(RemoveAt(lot.entries, i), lot.closed + one), max, x);
    }
  }

  lemma EvictionConserves(lot: Lot, now: real, max: nat, x: Handshake)
    requires max >= 1
    ensures Held(Evicted(lot, now, max), x) == Held(lot, x)
  {
    SweepConserves(lot.entries, now, x);
    TimesInConcatenation(lot.closed, ExpiredHandshakes(lot.entries, now), x);
    ShrinkingConserves(Lot(Live(lot.entries, now), lot.closed + ExpiredHandshakes(lot.entries, now)), max, x);
  }

  function AsSeq(out: Option<Handshake>): seq<Handshake> {
    if out.Some? then [out.value] else []
  }

  lemma ExtractionConserves(lot: Lot, key: Connection, x: Handshake)
    ensures var (rest, out) := Extract(lot, key); Held(lot, x) == Held(rest, x) + Times(AsSeq(out), x)
  {
    var found := IndexOf(lot.entries, key);
    if found.Some? {
      RemovalLosesOne(lot.entries, found.value, x);
    }
  }

  lemma InsertionConserves(lot: Lot, parked: Parked, x: Handshake)
    ensures Held(Insert(lot, parked), x) == Held(lot, x) + Times([parked.handshake], x)
  {
    ExtractionConserves(lot, parked.key, x);
    var (rest, out) := Extract(lot, parked.key);
    HandshakesOfConcatenation(rest.entries, [parked]);
    HandshakesOfOne(parked);
    TimesInConcatenation(HandshakesOf(rest.entries), [parked.handshake], x);
    TimesInConcatenation(rest.closed, AsSeq(out), x);
    assert Insert(lot, parked).closed == rest.closed + AsSeq(out);
  }

  // ---- whole runs -----------------------------------------------------------------------------

  datatype Call =
    | PutCall(key: Connection, handshake: Handshake, now: real, later: real)
    | PopCall(key: Connection, now: real)

  /** A run's lot, with what it was given and what it handed back, in order. */
  datatype History = History(lot: Lot, given: seq<Handshake>, returned: seq<Handshake>)

  function Step(h: History, c: Call, ttl: real, max: nat): History
    requires max >= 1
  {
    match c
    case PutCall(key, handshake, now, later) =>
      History(Put(h.lot, key, handshake, now, later + ttl, max), h.given + [handshake], h.returned)
    case PopCall(key, now) =>
      var (lot, out) := Pop(h.lot, key, now, max);
      History(lot, h.given, h.returned + AsSeq(out))
  }

  function Run(calls: seq<Call>, ttl: real, max: nat): History
    requires max >= 1
  {
    if calls == [] then History(Lot([], []), [], [])
    else Step(Run(calls[..|calls| - 1], ttl, max), calls[|calls| - 1], ttl, max)
  }

  function FirstReading(c: Call): real { c.now }

  function LastReading(c: Call): real {
    if c.PutCall? then c.later else c.now
  }

  /** A monotonic clock: readings never go back, within a call or between calls. */
  predicate MonotonicClock(calls: seq<Call>) {
    && (forall i :: 0 <= i < |calls| ==> FirstReading(calls[i]) <= LastReading(calls[i]))
    && (forall i :: 0 < i < |calls| ==> LastReading(calls[i - 1]) <= FirstReading(calls[i]))
  }

  /** As often as `x` was given, so often is it parked, closed or handed back. */
  predicate Balanced(h: History, x: Handshake) {
    Held(h.lot, x) + Times(h.returned, x) == Times(h.given, x)
  }

  lemma StepConserves(h: History, c: Call, ttl: real, max: nat, x: Handshake)
    requires max >= 1 && Balanced(h, x)
    ensures Balanced(Step(h, c, ttl, max), x)
  {
    EvictionConserves(h.lot, c.now, max, x);
    var swept := Evicted(h.lot, c.now, max);
    match c {
      case PutCall(key, handshake, now, later) =>
        InsertionConserves(swept, Parked(key, handshake, later + ttl), x);
        TimesInConcatenation(h.given, [handshake], x);
      case PopCall(key, now) =>
        ExtractionConserves(swept, key, x);
        TimesInConcatenation(h.returned, AsSeq(Extract(swept, key).1), x);
    }
  }

  /** No handshake is ever lost or duplicated, over every run. */
  lemma {:induction false} RunConserves(calls: seq<Call>, ttl: real, max: nat, x: Handshake)
    requires max >= 1
    ensures Balanced(Run(calls, ttl, max), x)
    decreases |calls|
  {
    if calls != [] {
      RunConserves(calls[..|calls| - 1], ttl, max, x);
      StepConserves(Run(calls[..|calls| - 1], ttl, max), calls[|calls| - 1], ttl, max, x);
    }
  }

  /** A handshake given once is exactly one of parked, closed once, and handed back once. */
  lemma EachHandshakeHasOneFate(calls: seq<Call>, ttl: real, max: nat, x: Handshake)
    requires max >= 1 && Times(Run(calls, ttl, max).given, x) == 1
    ensures var h := Run(calls, ttl, max);
            var (parked, closed, returned) :=
              (Times(HandshakesOf(h.lot.entries), x), Times(h.lot.closed, x), Times(h.returned, x));
            parked + closed + returned == 1
  {
    RunConserves(calls, ttl, max, x);
  }

  // ---- order, size and expiry -----------------------------------------------------------------

  predicate ByDeadline(entries: seq<Parked>) {
    forall i, j :: 0 <= i < j < |entries| ==> entries[i].deadline <= entries[j].deadline
  }

  /** What a monotonic clock keeps: put order is deadline order, and the lot fits. */
  ghost predicate Orderly(entries: seq<Parked>, clock: real, ttl: real, max: nat) {
    && DistinctKeys(entries) && ByDeadline(entries) && |entries| <= max
    && forall i :: 0 <= i < |entries| ==> entries[i].deadline <= clock + ttl
  }

  /** How many of the oldest entries a sweep at `now` takes: the expired ones, and then one
      more when the rest still fill the lot. */
  function ExpiredCount(entries: seq<Parked>, now: real): (n: nat)
    requires ByDeadline(entries)
    ensures n <= |entries|
    ensures forall i :: 0 <= i < n ==> entries[i].deadline <= now
    ensures forall i :: n <= i < |entries| ==> now < entries[i].deadline
  {
    if entries == [] then 0
    else
      var last := |entries| - 1;
      if entries[last].deadline <= now then |entries| else ExpiredCount(entries[..last], now)
  }

  lemma {:induction false} ExpiryTakesAPrefix(entries: seq<Parked>, n: nat, now: real)
    requires n <= |entries|
    requires forall i :: 0 <= i < n ==> entries[i].deadline <= now
    requires forall i :: n <= i < |entries| ==> now < entries[i].deadline
    ensures Live(entries, now) == entries[n..]
    ensures ExpiredHandshakes(entries, now) == HandshakesOf(entries[..n])
    decreases |entries|
  {
    if entries != [] {
      var last := |entries| - 1;
      if n == |entries| {
        ExpiryTakesAPrefix(entries[..last], last, now);
        assert entries[..last][..last] == entries[..last] && entries[..n] == entries;
      } else {
        ExpiryTakesAPrefix(entries[..last], n, now);
        assert entries[..last][..n] == entries[..n];
        assert entries[..last][n..] + [entries[last]] == entries[n..];
      }
    }
  }

  /** A lot that fits loses at most its oldest entry. */
  lemma ShrinkingTakesTheOldest(lot: Lot, max: nat)
    requires max >= 1 && ByDeadline(lot.entries) && |lot.entries| <= max
    ensures Shrunk(lot, max) == if |lot.entries| < max then lot
                                else Lot(lot.entries[1..], lot.closed + [lot.entries[0].handshake])
  {
    if |lot.entries| == max {
      OldestIsTheFirstMinimum(lot.entries);
      assert Oldest(lot.entries) == 0;
      assert RemoveAt(lot.entries, 0) == lot.entries[1..];
    }
  }

  /** The number of entries a sweep removes from an orderly lot. */
  function SweptCount(entries: seq<Parked>, now: real, max: nat): (m: nat)
    requires max >= 1 && ByDeadline(entries) && |entries| <= max
    ensures m <= |entries|
  {
    var n := ExpiredCount(entries, now);
    if n == 0 && |entries| == max then 1 else n
  }

  lemma HandshakesOfTheFirst(entries: seq<Parked>)
    requires entries != []
    ensures HandshakesOf(entries[..1]) == [entries[0].handshake]
  {
    assert entries[..1] == [entries[0]];
    HandshakesOfOne(entries[0]);
  }

  lemma NothingExpired(lot: Lot, now: real, max: nat)
    requires max >= 1 && forall i :: 0 <= i < |lot.entries| ==> now < lot.entries[i].deadline
    ensures Evicted(lot, now, max) == Shrunk(lot, max)
  {
    ExpiryTakesAPrefix(lot.entries, 0, now);
    assert ExpiredHandshakes(lot.entries, now) == [];
    assert lot.closed + [] == lot.closed;
  }

  lemma EvictionFromAFullLot(lot: Lot, now: real, max: nat)
    requires max >= 1 && ByDeadline(lot.entries) && |lot.entries| == max
    requires ExpiredCount(lot.entries, now) == 0
    ensures Evicted(lot, now, max) == Lot(lot.entries[1..], lot.closed + HandshakesOf(lot.entries[..1]))
  {
    NothingExpired(lot, now, max);
    ShrinkingTakesTheOldest(lot, max);
    HandshakesOfTheFirst(lot.entries);
  }

  lemma EvictionOfTheExpired(lot: Lot, now: real, max: nat)
    requires max >= 1 && ByDeadline(lot.entries) && |lot.entries| - ExpiredCount(lot.entries, now) < max
    ensures var n := ExpiredCount(lot.entries, now);
            Evicted(lot, now, max) == Lot(lot.entries[n..], lot.closed + HandshakesOf(lot.entries[..n]))
  {
    ExpiryTakesAPrefix(lot.entries, ExpiredCount(lot.entries, now), now);
  }

  /** Eviction is oldest put first, in order, and takes a live handshake only from a full lot. */
  lemma EvictionIsOldestFirst(lot: Lot, now: real, max: nat)
    requires max >= 1 && ByDeadline(lot.entries) && |lot.entries| <= max
    ensures var m := SweptCount(lot.entries, now, max);
            Evicted(lot, now, max) == Lot(lot.entries[m..], lot.closed + HandshakesOf(lot.entries[..m]))
  {
    if ExpiredCount(lot.entries, now) == 0 && |lot.entries| == max {
      EvictionFromAFullLot(lot, now, max);
    } else {
      EvictionOfTheExpired(lot, now, max);
    }
  }

  lemma RemovalKeepsOrder(entries: seq<Parked>, i: nat)
    requires i < |entries| && DistinctKeys(entries) && ByDeadline(entries)
    ensures var rest := RemoveAt(entries, i);
            && DistinctKeys(rest) && ByDeadline(rest)
            && forall j :: 0 <= j < |rest| ==> rest[j] in entries && rest[j].key != entries[i].key
  {
  }

  lemma EvictionKeepsOrder(lot: Lot, now: real, clock: real, ttl: real, max: nat)
    requires max >= 1 && Orderly(lot.entries, clock, ttl, max)
    ensures Orderly(Evicted(lot, now, max).entries, clock, ttl, max - 1)
  {
    EvictionIsOldestFirst(lot, now, max);
  }

  lemma ExtractionKeepsOrder(lot: Lot, key: Connection, clock: real, ttl: real, max: nat)
    requires Orderly(lot.entries, clock, ttl, max)
    ensures var rest := Extract(lot, key).0.entries;
            Orderly(rest, clock, ttl, max) && forall j :: 0 <= j < |rest| ==> rest[j].key != key
  {
    IndexOfMisses(lot.entries, key);
    var found := IndexOf(lot.entries, key);
    if found.Some? {
      RemovalKeepsOrder(lot.entries, found.value);
    }
  }

  lemma ParkingKeepsOrder(rest: seq<Parked>, parked: Parked, clock: real, later: real, ttl: real, max: nat)
    requires max >= 1 && Orderly(rest, clock, ttl, max - 1) && clock <= later && parked.deadline == later + ttl
    requires forall j :: 0 <= j < |rest| ==> rest[j].key != parked.key
    ensures Orderly(rest + [parked], later, ttl, max)
  {
  }

  lemma StepKeepsOrder(h: History, c: Call, clock: real, ttl: real, max: nat)
    requires max >= 1 && Orderly(h.lot.entries, clock, ttl, max)
    requires clock <= FirstReading(c) <= LastReading(c)
    ensures Orderly(Step(h, c, ttl, max).lot.entries, LastReading(c), ttl, max)
  {
    EvictionKeepsOrder(h.lot, c.now, clock, ttl, max);
    var swept := Evicted(h.lot, c.now, max);
    ExtractionKeepsOrder(swept, c.key, clock, ttl, max - 1);
    var rest := Extract(swept, c.key).0.entries;
    if c.PutCall? {
      var parked := Parked(c.key, c.handshake, c.later + ttl);
      ParkingKeepsOrder(rest, parked, clock, c.later, ttl, max);
      assert Step(h, c, ttl, max).lot.entries == rest + [parked];
    } else {
      assert Step(h, c, ttl, max).lot.entries == rest;
    }
  }

  /** On a monotonic clock every run leaves the lot ordered by put time and within its size. */
  lemma {:induction false} RunKeepsOrder(calls: seq<Call>, epoch: real, ttl: real, max: nat)
    requires max >= 1 && MonotonicClock(calls)
    requires calls != [] ==> epoch <= FirstReading(calls[0])
    ensures var clock := if calls == [] then epoch else LastReading(calls[|calls| - 1]);
            Orderly(Run(calls, ttl, max).lot.entries, clock, ttl, max)
    decreases |calls|
  {
    if calls != [] {
      var last := |calls| - 1;
      RunKeepsOrder(calls[..last], epoch, ttl, max);
      var clock := if last == 0 then epoch else LastReading(calls[last - 1]);
      StepKeepsOrder(Run(calls[..last], ttl, max), calls[last], clock, ttl, max);
    }
  }

  /** Entry `i` has not expired, and it is not the oldest in a lot that no expiry has made room in
      (which `pop` evicts before it looks). */
  predicate Survives(lot: Lot, i: nat, now: real, max: nat)
    requires i < |lot.entries|
  {
    now < lot.entries[i].deadline && !(i == 0 && |lot.entries| == max)
  }

  lemma PopOfAParkedConnection(lot: Lot, i: nat, now: real, clock: real, ttl: real, max: nat)
    requires max >= 1 && Orderly(lot.entries, clock, ttl, max) && i < |lot.entries|
    ensures Pop(lot, lot.entries[i].key, now, max).1
            == if Survives(lot, i, now, max) then Some(lot.entries[i].handshake) else None
  {
    EvictionIsOldestFirst(lot, now, max);
    var m := SweptCount(lot.entries, now, max);
    var swept := lot.entries[m..];
    if i < m {
      IndexOfMisses(swept, lot.entries[i].key);
    } else {
      assert swept[i - m] == lot.entries[i];
      IndexOfFindsThePlace(swept, i - m);
    }
  }

  /** Exactly when `pop` hands a handshake back, for any connection: it is the one parked for it,
      and it survives the eviction that comes first. */
  lemma PopReturnsExactly(lot: Lot, key: Connection, handshake: Handshake, now: real, clock: real, ttl: real, max: nat)
    requires max >= 1 && Orderly(lot.entries, clock, ttl, max)
    ensures Pop(lot, key, now, max).1 == Some(handshake) <==>
            exists i :: 0 <= i < |lot.entries| && lot.entries[i].key == key && lot.entries[i].handshake == handshake
                        && Survives(lot, i, now, max)
  {
    if i :| 0 <= i < |lot.entries| && lot.entries[i].key == key {
      PopOfAParkedConnection(lot, i, now, clock, ttl, max);
    } else {
      EvictionIsOldestFirst(lot, now, max);
      IndexOfMisses(Evicted(lot, now, max).entries, key);
    }
  }

  /** What was just put is what the next `pop` of that connection returns if it comes in time and
      the lot holds more than one: a lot of one is full with it, and evicts it first. */
  lemma PutThenPop(h: History, c: Call, now: real, clock: real, ttl: real, max: nat)
    requires max >= 1 && c.PutCall? && Orderly(h.lot.entries, clock, ttl, max)
    requires clock <= c.now <= c.later <= now
    ensures var lot := Step(h, c, ttl, max).lot;
            Pop(lot, c.key, now, max).1 == if now < c.later + ttl && max >= 2 then Some(c.handshake) else None
  {
    StepKeepsOrder(h, c, clock, ttl, max);
    var entries := Step(h, c, ttl, max).lot.entries;
    var last := |entries| - 1;
    assert entries[last] == Parked(c.key, c.handshake, c.later + ttl);
    PopOfAParkedConnection(Step(h, c, ttl, max).lot, last, now, c.later, ttl, max);
  }
}
