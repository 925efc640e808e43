/** Small shared vocabulary: optional values, results, bounded counters, suffixes. */
module Basics {

  datatype Option<+T> = None | Some(value: T)

  datatype Result<+T, +E> = Ok(value: T) | Err(error: E)

  const U32_MAX: nat := 0xFFFF_FFFF

  type byte = x: int | 0 <= x < 256

  type Bytes = seq<byte>

  /** The range of the source's `u32` counters and thresholds. */
  type u32 = x: nat | x <= U32_MAX

  /** `saturating_add(1)` on a `u32`. */
  function SatInc(x: u32): u32 {
    if x < U32_MAX then x + 1 else x
  }

  /** An unbounded count, seen through a saturating `u32`. */
  function Saturated(n: nat): u32 {
    if n <= U32_MAX then n else U32_MAX
  }

  function Max(a: nat, b: nat): nat {
    if a < b then b else a
  }

  function Min(a: nat, b: nat): nat {
    if a < b then a else b
  }

  function SatSub(a: nat, b: nat): nat {
    if a >= b then a - b else 0
  }

  /** The last `n` elements of `s`, or all of them when there are fewer. */
  function LastN<T>(s: seq<T>, n: nat): (r: seq<T>) {
    if |s| <= n then s else s[|s| - n..]
  }

  ghost predicate Distinct<T>(s: seq<T>) {
    forall i, j :: 0 <= i < j < |s| ==> s[i] != s[j]
  }

  lemma Associate<T>(a: seq<T>, b: seq<T>, c: seq<T>)
    ensures a + b + c == a + (b + c)
  {
  }

  function Flatten<T>(parts: seq<seq<T>>): seq<T>
    decreases |parts|
  {
    if parts == [] then [] else Flatten(parts[..|parts| - 1]) + parts[|parts| - 1]
  }

  lemma {:induction false} FlattenAppend<T>(a: seq<seq<T>>, b: seq<seq<T>>)
    ensures Flatten(a + b) == Flatten(a) + Flatten(b)
    decreases |b|
  {
    if b == [] {
      assert a + b == a;
    } else {
      var k := |b| - 1;
      FlattenAppend(a, b[..k]);
      assert (a + b)[..|a + b| - 1] == a + b[..k];
      Associate(Flatten(a), Flatten(b[..k]), b[k]);
    }
  }

  /** A nonempty set has an element. */
  lemma Pick<T>(s: set<T>) returns (x: T)
    requires s != {}
    ensures x in s
  {
    if forall y :: y !in s {
      assert false;
    }
    x :| x in s;
  }
}
