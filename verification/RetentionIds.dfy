/** Packet ids, their generator and their database encoding (src/retention/mod.rs, src/retention/sqlite/mod.rs). */
module RetentionIds {
  import opened Basics

  const COUNTERS: nat := 0x1_0000_0000

  /** `timestamp` counts milliseconds since the epoch; `counter` is a `u32`. */
  datatype Id = Id(timestamp: nat, counter: nat)

  /** The derived order of `Id`: timestamp first, then counter. */
  predicate Less(a: Id, b: Id) {
    a.timestamp < b.timestamp || (a.timestamp == b.timestamp && a.counter < b.counter)
  }

  // ---- The generator ------------------------------------------------------------------------

  class Context {
    var counter: nat

    ghost predicate Valid()
      reads this
    {
      counter < COUNTERS
    }

    constructor ()
      ensures Valid() && counter == 0
    {
      counter := 0;
    }

    /** `clock` is the system time read just before the atomic increment. */
    method Next(clock: nat) returns (id: Id)
      requires Valid()
      modifies this
      ensures Valid()
      ensures id == Id(clock, old(counter))
      ensures counter == Bump(old(counter))
    {
      id := Id(clock, counter);
      counter := (counter + 1) % COUNTERS;
    }
  }

  /** `fetch_add` on the `u32` counter. */
  function Bump(counter: nat): nat {
    if counter + 1 == COUNTERS then 0 else counter + 1
  }

  /** The counter after `calls` increments. */
  function CounterAfter(start: nat, calls: nat): nat {
    if calls == 0 then start else Bump(CounterAfter(start, calls - 1))
  }

  /** The id of the `i`-th call of a run; with several threads `clock` need not be in order. */
  function IdAt(start: nat, clock: seq<nat>, i: nat): Id
    requires i < |clock|
  {
    Id(clock[i], CounterAfter(start, i))
  }

  lemma {:induction false} CounterWraps(start: nat, calls: nat)
    requires start < 0x1_0000_0000
    ensures CounterAfter(start, calls) == (start + calls) % 0x1_0000_0000
  {
    if calls > 0 {
      CounterWraps(start, calls - 1);
    }
  }

  /** Two calls collide exactly when they share a millisecond and are a multiple of 2^32 calls apart. */
  lemma CollideIff(start: nat, clock: seq<nat>, i: nat, j: nat)
    requires start < COUNTERS && i < j < |clock|
    ensures IdAt(start, clock, i) == IdAt(start, clock, j)
       <==> clock[i] == clock[j] && (j - i) % COUNTERS == 0
    ensures j - i < COUNTERS ==> IdAt(start, clock, i) != IdAt(start, clock, j)
  {
    CounterWraps(start, i);
    CounterWraps(start, j);
  }

  /** On a nondecreasing clock the next id is larger, except at a counter wrap inside one millisecond. */
  lemma IncreasingIff(start: nat, clock: seq<nat>, i: nat)
    requires start < COUNTERS && i + 1 < |clock| && clock[i] <= clock[i + 1]
    ensures Less(IdAt(start, clock, i), IdAt(start, clock, i + 1))
       <==> !(clock[i] == clock[i + 1] && (start + i + 1) % COUNTERS == 0)
  {
    CounterWraps(start, i);
  }

  // ---- Big-endian encodings -----------------------------------------------------------------

  function Pow256(n: nat): nat {
    if n == 0 then 1 else 256 * Pow256(n - 1)
  }

  /** `to_be_bytes` of an unsigned integer of `width` bytes. */
  function ToBytes(n: nat, width: nat): (b: seq<Byte>)
    ensures |b| == width
  {
    if width == 0 then [] else ToBytes(n / 256, width - 1) + [n % 256]
  }

  function FromBytes(b: seq<Byte>): nat {
    if b == [] then 0 else 256 * FromBytes(b[..|b| - 1]) + b[|b| - 1]
  }

  /** Byte-wise comparison of equally long blobs, as the database orders them. */
  predicate BlobLess(a: seq<Byte>, b: seq<Byte>)
    requires |a| == |b|
  {
    a != [] && (a[0] < b[0] || (a[0] == b[0] && BlobLess(a[1..], b[1..])))
  }

  lemma {:induction false} BlobLessSnoc(a: seq<Byte>, b: seq<Byte>, x: Byte, y: Byte)
    requires |a| == |b|
    ensures BlobLess(a + [x], b + [y]) <==> BlobLess(a, b) || (a == b && x < y)
  {
    if a != [] {
      assert (a + [x])[1..] == a[1..] + [x] && (b + [y])[1..] == b[1..] + [y];
      assert a == [a[0]] + a[1..] && b == [b[0]] + b[1..];
      BlobLessSnoc(a[1..], b[1..], x, y);
    }
  }

  lemma {:induction false} BytesRoundTrip(n: nat, width: nat)
    requires n < Pow256(width)
    ensures FromBytes(ToBytes(n, width)) == n
  {
    if width > 0 {
      BytesRoundTrip(n / 256, width - 1);
      assert ToBytes(n, width)[..width - 1] == ToBytes(n / 256, width - 1);
    }
  }

  lemma {:induction false} BytesCanonical(b: seq<Byte>)
    ensures FromBytes(b) < Pow256(|b|) && ToBytes(FromBytes(b), |b|) == b
  {
    if b != [] {
      BytesCanonical(b[..|b| - 1]);
      assert b == b[..|b| - 1] + [b[|b| - 1]];
    }
  }

  lemma {:induction false} BytesOrder(m: nat, n: nat, width: nat)
    requires m < Pow256(width) && n < Pow256(width)
    ensures BlobLess(ToBytes(m, width), ToBytes(n, width)) <==> m < n
    ensures ToBytes(m, width) == ToBytes(n, width) <==> m == n
  {
    BytesRoundTrip(m, width);
    BytesRoundTrip(n, width);
    if width > 0 {
      BytesOrder(m / 256, n / 256, width - 1);
      BlobLessSnoc(ToBytes(m / 256, width - 1), ToBytes(n / 256, width - 1), m % 256, n % 256);
    }
  }

  /** `FromSql` for the millisecond timestamp: any blob that is not 16 bytes long is refused. */
  function TimestampFromSql(blob: seq<Byte>): Result<nat, ()> {
    if |blob| == 16 then Ok(FromBytes(blob)) else Err(())
  }

  /** The primary-key order of the publish table: timestamp blob, then counter. */
  predicate RowKeyLess(a: Id, b: Id) {
    var x, y := ToBytes(a.timestamp, 16), ToBytes(b.timestamp, 16);
    BlobLess(x, y) || (x == y && a.counter < b.counter)
  }

  /** Sorting rows by their key columns is sorting them by `Id`, and reading a key back loses nothing. */
  lemma RowKeyOrder(a: Id, b: Id)
    requires a.timestamp < Pow256(16) && b.timestamp < Pow256(16)
    ensures RowKeyLess(a, b) <==> Less(a, b)
    ensures TimestampFromSql(ToBytes(a.timestamp, 16)) == Ok(a.timestamp)
  {
    BytesOrder(a.timestamp, b.timestamp, 16);
    BytesRoundTrip(a.timestamp, 16);
  }

  // ---- Expiry in whole seconds --------------------------------------------------------------

  /** `Duration::MAX` in nanoseconds. */
  const DURATION_MAX: nat := U64_MAX * SECOND + 999_999_999

  /** `TimestampSecs::from_id`: fails when the timestamp does not fit a `u64` of milliseconds. */
  function ExpirySecs(id: Id, expiry: nat): Result<nat, ()> {
    if id.timestamp > U64_MAX then Err(()) else Ok(Min(id.timestamp * MILLI + expiry, DURATION_MAX) / SECOND)
  }

  /** The test of `delete_expired`: both columns as 8-byte blobs. */
  predicate RowExpired(expirySecs: nat, nowSecs: nat) {
    BlobLess(ToBytes(expirySecs, 8), ToBytes(nowSecs, 8))
  }

  /** A row never expires before its deadline, and is expired one second after it at the latest. */
  lemma ExpiryIsTimely(id: Id, expiry: nat, now: nat)
    requires id.timestamp <= U64_MAX && expiry <= DURATION_MAX && now <= DURATION_MAX
    ensures ExpirySecs(id, expiry).Ok?
    ensures var deadline := id.timestamp * MILLI + expiry;
            var expired := RowExpired(ExpirySecs(id, expiry).value, now / SECOND);
            && (expired ==> now > deadline)
            && (now >= deadline + SECOND ==> expired)
  {
    var deadline := id.timestamp * MILLI + expiry;
    var secs := ExpirySecs(id, expiry).value;
    assert Pow256(8) == U64_MAX + 1;
    assert secs <= U64_MAX && now / SECOND <= U64_MAX;
    BytesOrder(secs, now / SECOND, 8);
  }
}
