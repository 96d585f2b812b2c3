/** Values shared by every probe: an optional result, what a line scanner
    delivered, and the bounds of Go's 64-bit integers. */
module Common {

  datatype Option<T> = None | Some(value: T)

  /** The zero or one values an option holds. */
  function Values<T>(o: Option<T>): (r: seq<T>)
    ensures |r| <= 1 && (o.Some? ==> r == [o.value]) && (o.None? ==> r == [])
  {
    if o.Some? then [o.value] else []
  }

  /** What a `bufio.Scanner` loop over a file sees: either the file could not
      be opened, or the lines it delivers before stopping, together with
      whether it stops because of a read error (`scanner.Err() != nil`).
      A scanner keeps handing out the lines it has buffered after it has
      recorded a read error; `late` counts those final lines (0 without an
      error). */
  datatype FileScan = OpenFailed | Scanned(lines: seq<string>, failed: bool, late: nat)

  /** Whether `scanner.Err()` is non-nil when a loop over the scan stops
      after line `stop`, or, with `stop == |lines|`, after the last line:
      the error must already have been recorded. */
  predicate ErrorSeenAt(scan: FileScan, stop: nat)
    requires scan.Scanned?
  {
    scan.failed && stop + scan.late >= |scan.lines|
  }

  /** What a loop that visits `items` in order collects when each item
      yields at most one result. */
  function FilterMap<T, U>(f: T -> Option<U>, items: seq<T>): seq<U>
    decreases |items|
  {
    if items == [] then [] else Values(f(items[0])) + FilterMap(f, items[1..])
  }

  /** A result is collected exactly when some item yields it. */
  lemma {:induction false} FilterMapMembership<T, U>(f: T -> Option<U>, items: seq<T>, t: U)
    ensures t in FilterMap(f, items) <==> exists i :: 0 <= i < |items| && f(items[i]) == Some(t)
    decreases |items|
  {
    if items != [] {
      FilterMapMembership(f, items[1..], t);
      forall i | 0 < i < |items| ensures items[1..][i - 1] == items[i] { }
    }
  }

  /** The results of two runs of items, one after the other, are those of
      the first run followed by those of the second: order is kept. */
  lemma {:induction false} FilterMapAppend<T, U>(f: T -> Option<U>, a: seq<T>, b: seq<T>)
    ensures FilterMap(f, a + b) == FilterMap(f, a) + FilterMap(f, b)
    decreases |a|
  {
    if a != [] {
      assert (a + b)[0] == a[0] && (a + b)[1..] == a[1..] + b;
      FilterMapAppend(f, a[1..], b);
      var head := Values(f(a[0]));
      calc {
        FilterMap(f, a + b);
        head + FilterMap(f, a[1..] + b);
        head + (FilterMap(f, a[1..]) + FilterMap(f, b));
        (head + FilterMap(f, a[1..])) + FilterMap(f, b);
      }
    } else {
      assert a + b == b;
    }
  }

  /** Go's `int` and `int64` on the 64-bit platforms the exporter targets. */
  const MinInt64: int := -0x8000_0000_0000_0000
  const MaxInt64: int := 0x7FFF_FFFF_FFFF_FFFF
  const TwoTo64: int := 0x1_0000_0000_0000_0000

  predicate IsInt64(n: int) { MinInt64 <= n <= MaxInt64 }

  /** A value of Go type `int64`. */
  type Int64 = n: int | IsInt64(n)

  /** Two's-complement reinterpretation of any integer as an int64, i.e. the
      result of Go arithmetic or of a `int64(...)` conversion that wraps. */
  function WrapInt64(n: int): (r: int)
    ensures IsInt64(r)
    ensures (r - n) % TwoTo64 == 0
    ensures IsInt64(n) ==> r == n
  {
    var m := n % TwoTo64;
    if m <= MaxInt64 then m else m - TwoTo64
  }
}
