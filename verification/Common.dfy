/** Small vocabulary shared by every module of the model. */
module Common {

  datatype Option<+T> = None | Some(value: T)

  type byte = b: int | 0 <= b < 0x100

  /** One immutable byte buffer. */
  type Bytes = seq<byte>

  /** Largest integer JavaScript numbers represent exactly (2^53 - 1). */
  const MAX_SAFE_INTEGER: int := 0x1f_ffff_ffff_ffff

  /** Largest request count and stream identifier (2^31 - 1). */
  const MAX_REQUEST_N: int := 0x7fff_ffff

  function Min(a: int, b: int): (m: int)
    ensures m <= a && m <= b && (m == a || m == b)
  {
    if a < b then a else b
  }

  function Max(a: int, b: int): (m: int)
    ensures m >= a && m >= b && (m == a || m == b)
  {
    if a < b then b else a
  }

  /** Concatenation of a list of lists. */
  function Flatten<T>(parts: seq<seq<T>>): (r: seq<T>)
    ensures parts == [] ==> r == []
  {
    if parts == [] then [] else parts[0] + Flatten(parts[1..])
  }

  lemma {:induction false} FlattenConcat<T>(a: seq<seq<T>>, b: seq<seq<T>>)
    ensures Flatten(a + b) == Flatten(a) + Flatten(b)
  {
    if a == [] {
      assert a + b == b;
    } else {
      assert (a + b)[1..] == a[1..] + b;
      FlattenConcat(a[1..], b);
    }
  }

  lemma FlattenAppend<T>(parts: seq<seq<T>>, last: seq<T>)
    ensures Flatten(parts + [last]) == Flatten(parts) + last
  {
    FlattenConcat(parts, [last]);
    assert Flatten([last]) == last;
  }

  /** JavaScript's copyWithin(0, from): the tail moves to the front, the rest stays in place. */
  function CopiedWithin<T>(values: seq<T>, from: nat): (r: seq<T>)
    requires from <= |values|
    ensures |r| == |values| && r[..|values| - from] == values[from..]
  {
    values[from..] + values[|values| - from..]
  }

  lemma ConcatAssociates<T>(a: seq<T>, b: seq<T>, c: seq<T>)
    ensures a + b + c == a + (b + c)
  {}

  lemma PrefixTakes<T>(a: seq<T>, b: seq<T>)
    requires a <= b
    ensures b[..|a|] == a
    ensures forall j :: 0 <= j <= |a| ==> a[..j] == b[..j]
  {}

  lemma TakeThenDrop<T>(s: seq<T>, k: nat)
    requires k <= |s|
    ensures s[..k] + s[k..] == s
  {}

  lemma {:induction false} SubsetSize<T>(a: set<T>, b: set<T>)
    requires a <= b
    ensures |a| <= |b|
    decreases |a|
  {
    if a != {} {
      var x :| x in a;
      SubsetSize(a - {x}, b - {x});
    }
  }
}
