/** Bookkeeping of disk space for pending downloads (models/volume.go), in the unsigned
    64-bit arithmetic of the source. */
module Volumes {
  import opened Collections
  import opened Options

  const WORD := 0x1_0000_0000_0000_0000

  type Word = n: int | 0 <= n < WORD

  datatype Book = Book(claimed: Word, reservations: map<string, Word>)

  /** A request, with the free space the operating system reports at that moment. */
  datatype Op = Reserve(path: string, bytes: Word, free: Option<Word>) | Release(path: string)

  /** The sum or difference of two words as a word. */
  function Wrap(a: int): (r: Word)
    requires -WORD <= a < 2 * WORD
    ensures r == a % WORD
  {
    if a < 0 then a + WORD else if a >= WORD then a - WORD else a
  }

  /** Reserve compares with AvailableSpace, an unsigned subtraction. */
  predicate Granted(b: Book, op: Op) {
    op.Reserve? && op.free.Some? && op.bytes < Wrap(op.free.value - b.claimed)
  }

  function Apply(b: Book, op: Op): Book {
    match op
    case Reserve(path, bytes, _) =>
      if Granted(b, op) then Book(Wrap(b.claimed + bytes), b.reservations[path := bytes]) else b
    case Release(path) =>
      var claimed := if path in b.reservations then Wrap(b.claimed - b.reservations[path]) else b.claimed;
      Book(claimed, b.reservations - {path})
  }

  function Run(b: Book, ops: seq<Op>): Book
    decreases |ops|
  {
    if |ops| == 0 then b else Run(Apply(b, ops[0]), ops[1..])
  }

  // ----- the sum of the reservations -----

  ghost function Sum(m: map<string, Word>): nat
    decreases |m|
  {
    if |m| == 0 then 0 else
      var k :| k in m;
      m[k] + Sum(m - {k})
  }

  lemma Swap(m: map<string, Word>, j: string, k: string)
    requires j in m && k in m && j != k
    ensures m - {j} - {k} == m - {k} - {j} && k in m - {j} && j in m - {k}
    ensures (m - {j})[k] == m[k] && (m - {k})[j] == m[j] && |m - {j}| < |m| && |m - {k}| < |m|
  {
    assert (m - {j}).Keys == m.Keys - {j} && (m - {k}).Keys == m.Keys - {k};
  }

  lemma FirstSummed(m: map<string, Word>) returns (j: string)
    requires |m| > 0
    ensures j in m && Sum(m) == m[j] + Sum(m - {j})
  {
    j :| j in m && Sum(m) == m[j] + Sum(m - {j});
  }

  lemma {:induction false} SumWithout(m: map<string, Word>, k: string)
    requires k in m
    ensures Sum(m) == m[k] + Sum(m - {k})
    decreases |m|
  {
    var j := FirstSummed(m);
    if j != k {
      Swap(m, j, k);
      SumWithout(m - {j}, k);
      SumWithout(m - {k}, j);
    }
  }

  function Live(m: map<string, Word>, k: string): Word {
    if k in m then m[k] else 0
  }

  lemma SumReleased(m: map<string, Word>, k: string)
    ensures Sum(m - {k}) == Sum(m) - Live(m, k)
  {
    if k in m {
      SumWithout(m, k);
    } else {
      WithoutAbsent(m, k);
    }
  }

  lemma SumReserved(m: map<string, Word>, k: string, n: Word)
    ensures Sum(m[k := n]) == Sum(m) - Live(m, k) + n
  {
    SumReleased(m, k);
    SumWithout(m[k := n], k);
    UpdatedWithout(m, k, n);
  }

  // ----- conservation -----

  /** The bytes of a live reservation that this request replaces. They are never given back. */
  function LostBy(b: Book, op: Op): nat {
    if Granted(b, op) then Live(b.reservations, op.path) else 0
  }

  /** How often the claimed space wraps: up by one past the top, down by one below zero. */
  function WrapsBy(b: Book, op: Op): int {
    if Granted(b, op) then (if b.claimed + op.bytes >= WORD then 1 else 0)
    else if op.Release? && b.claimed < Live(b.reservations, op.path) then -1
    else 0
  }

  function Lost(b: Book, ops: seq<Op>): nat
    decreases |ops|
  {
    if |ops| == 0 then 0 else LostBy(b, ops[0]) + Lost(Apply(b, ops[0]), ops[1..])
  }

  function Wraps(b: Book, ops: seq<Op>): int
    decreases |ops|
  {
    if |ops| == 0 then 0 else WrapsBy(b, ops[0]) + Wraps(Apply(b, ops[0]), ops[1..])
  }

  lemma ApplyConserves(b: Book, op: Op)
    ensures Apply(b, op).claimed + WORD * WrapsBy(b, op) - Sum(Apply(b, op).reservations) ==
            b.claimed - Sum(b.reservations) + LostBy(b, op)
  {
    if op.Release? {
      SumReleased(b.reservations, op.path);
    } else {
      SumReserved(b.reservations, op.path, op.bytes);
    }
  }

  /** After any requests whatever, the claimed space is the sum of the live reservations and
      of those that were replaced, less a whole number of wraps. */
  lemma {:induction false} Conservation(b: Book, ops: seq<Op>)
    ensures Run(b, ops).claimed + WORD * Wraps(b, ops) - Sum(Run(b, ops).reservations) ==
            b.claimed - Sum(b.reservations) + Lost(b, ops)
    decreases |ops|
  {
    if |ops| > 0 {
      ApplyConserves(b, ops[0]);
      Conservation(Apply(b, ops[0]), ops[1..]);
    }
  }

  /** No path is reserved while it is reserved, and the disk never has less free space than
      is claimed when space is requested. */
  predicate Orderly(b: Book, ops: seq<Op>)
    decreases |ops|
  {
    || |ops| == 0
    || (&& (ops[0].Reserve? ==>
              ops[0].path !in b.reservations && (ops[0].free.Some? ==> b.claimed <= ops[0].free.value))
        && Orderly(Apply(b, ops[0]), ops[1..]))
  }

  /** In an orderly run the claimed space is exactly the sum of the live reservations, so that
      a volume on which everything was released has nothing claimed. */
  lemma {:induction false} OrderlyRunIsExact(b: Book, ops: seq<Op>)
    requires b.claimed == Sum(b.reservations) && Orderly(b, ops)
    ensures Run(b, ops).claimed == Sum(Run(b, ops).reservations)
    decreases |ops|
  {
    if |ops| > 0 {
      ApplyConserves(b, ops[0]);
      if ops[0].Release? {
        SumReleased(b.reservations, ops[0].path);
      }
      OrderlyRunIsExact(Apply(b, ops[0]), ops[1..]);
    }
  }

  /** No path is reserved while it is reserved, and the free space the disk reports never
      shrinks below an earlier report. */
  predicate Steady(b: Book, floor: Word, ops: seq<Op>)
    decreases |ops|
  {
    || |ops| == 0
    || (&& (ops[0].Reserve? ==> ops[0].path !in b.reservations && (ops[0].free.Some? ==> floor <= ops[0].free.value))
        && Steady(Apply(b, ops[0]), NextFloor(floor, ops[0]), ops[1..]))
  }

  function NextFloor(floor: Word, op: Op): Word {
    if op.Reserve? && op.free.Some? then op.free.value else floor
  }

  function LastFloor(floor: Word, ops: seq<Op>): Word
    decreases |ops|
  {
    if |ops| == 0 then floor else LastFloor(NextFloor(floor, ops[0]), ops[1..])
  }

  lemma SteadyStep(b: Book, floor: Word, op: Op)
    requires b.claimed == Sum(b.reservations) && b.claimed <= floor
    requires op.Reserve? ==> op.path !in b.reservations && (op.free.Some? ==> floor <= op.free.value)
    ensures var r := Apply(b, op); r.claimed == Sum(r.reservations) && r.claimed <= NextFloor(floor, op)
  {
    ApplyConserves(b, op);
    if op.Release? {
      SumReleased(b.reservations, op.path);
    } else if op.free.Some? {
      GrantedFits(b, op);
    }
  }

  /** On a disk that does not shrink, no subtraction wraps and the claimed space never exceeds
      the free space last reported. */
  lemma {:induction false} SteadyDiskIsNeverOverclaimed(b: Book, floor: Word, ops: seq<Op>)
    requires b.claimed == Sum(b.reservations) && b.claimed <= floor && Steady(b, floor, ops)
    ensures Orderly(b, ops) && Run(b, ops).claimed <= LastFloor(floor, ops)
    decreases |ops|
  {
    if |ops| > 0 {
      SteadyStep(b, floor, ops[0]);
      SteadyDiskIsNeverOverclaimed(Apply(b, ops[0]), NextFloor(floor, ops[0]), ops[1..]);
    }
  }

  /** A granted request fits beside what is claimed, if and only if the disk has at least as
      much free space as is claimed. Otherwise the subtraction wraps, and nearly any request
      is granted. */
  lemma GrantedFits(b: Book, op: Op)
    requires op.Reserve? && op.free.Some?
    ensures b.claimed <= op.free.value ==> (Granted(b, op) <==> b.claimed + op.bytes < op.free.value)
    ensures b.claimed > op.free.value ==>
              (Granted(b, op) <==> op.bytes < 18446744073709551616 - (b.claimed - op.free.value))
  {
  }

  /** Reserving a path twice and releasing it once leaves the first reservation claimed. */
  lemma ReservingTwiceLeaks(path: string, n: nat, m: nat, free: Word)
    requires n + m < free
    ensures Run(Book(0, map[]), [Reserve(path, n, Some(free)), Reserve(path, m, Some(free)), Release(path)]) ==
            Book(n, map[])
  {
    var b := Apply(Book(0, map[]), Reserve(path, n, Some(free)));
    assert b == Book(n, map[path := n]);
    var c := Apply(b, Reserve(path, m, Some(free)));
    assert c == Book(n + m, map[path := m]);
    var d := Apply(c, Release(path));
    assert d == Book(n, map[]);
    assert Run(d, []) == d;
    assert [Release(path)][1..] == [];
    assert Run(c, [Release(path)]) == d;
    assert [Reserve(path, m, Some(free)), Release(path)][1..] == [Release(path)];
    assert [Reserve(path, n, Some(free)), Reserve(path, m, Some(free)), Release(path)][1..] ==
           [Reserve(path, m, Some(free)), Release(path)];
  }

  class Volume {
    var claimed: Word
    var reservations: map<string, Word>

    function View(): Book
      reads this
    {
      Book(claimed, reservations)
    }

    constructor ()
      ensures View() == Book(0, map[])
    {
      claimed, reservations := 0, map[];
    }

    method AvailableSpace(free: Option<Word>) returns (ok: bool, available: Word)
      ensures ok == free.Some? && (ok ==> available == Wrap(free.value - claimed))
    {
      if free.None? {
        return false, 0;
      }
      return true, Wrap(free.value - claimed);
    }

    method ReserveSpace(path: string, bytes: Word, free: Option<Word>) returns (ok: bool)
      modifies this
      ensures ok == Granted(old(View()), Reserve(path, bytes, free))
      ensures View() == Apply(old(View()), Reserve(path, bytes, free))
    {
      var available;
      ok, available := AvailableSpace(free);
      if !ok || bytes >= available {
        return false;
      }
      reservations := reservations[path := bytes];
      claimed := Wrap(claimed + bytes);
    }

    method ReleaseSpace(path: string)
      modifies this
      ensures View() == Apply(old(View()), Release(path))
    {
      if path in reservations {
        claimed := Wrap(claimed - reservations[path]);
      }
      reservations := reservations - {path};
    }
  }
}
