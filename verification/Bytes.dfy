/** Byte strings and the one order libmdbx keeps keys in. */
module Bytes {

  type Byte = b: int | 0 <= b < 256
  type Bytes = seq<Byte>

  datatype Option<+T> = None | Some(value: T)

  /** Lexicographic order: the common prefix decides, then the shorter string comes first.
      Stated on integers so that it also orders character codes. */
  predicate Less(a: seq<int>, b: seq<int>)
  {
    if b == [] then false
    else if a == [] then true
    else a[0] < b[0] || (a[0] == b[0] && Less(a[1..], b[1..]))
  }

  predicate AtMost(a: seq<int>, b: seq<int>) { a == b || Less(a, b) }

  lemma {:induction false} LessIrreflexive(a: seq<int>)
    ensures !Less(a, a)
  {
    if a != [] { LessIrreflexive(a[1..]); }
  }

  lemma {:induction false} LessTransitive(a: seq<int>, b: seq<int>, c: seq<int>)
    requires Less(a, b) && Less(b, c)
    ensures Less(a, c)
  {
    if a != [] && a[0] == b[0] == c[0] { LessTransitive(a[1..], b[1..], c[1..]); }
  }

  lemma {:induction false} LessTotal(a: seq<int>, b: seq<int>)
    ensures Less(a, b) || a == b || Less(b, a)
  {
    if a != [] && b != [] && a[0] == b[0] {
      LessTotal(a[1..], b[1..]);
      assert a == [a[0]] + a[1..] && b == [b[0]] + b[1..];
    }
  }

  lemma LessAsymmetric(a: seq<int>, b: seq<int>)
    requires Less(a, b)
    ensures !Less(b, a) && a != b
  {}

  /** A common prefix does not affect the order. */
  lemma {:induction false} LessSamePrefix(p: seq<int>, a: seq<int>, b: seq<int>)
    ensures Less(p + a, p + b) <==> Less(a, b)
  {
    if p == [] {
      assert p + a == a && p + b == b;
    } else {
      LessSamePrefix(p[1..], a, b);
      assert (p + a)[1..] == p[1..] + a && (p + b)[1..] == p[1..] + b;
    }
  }

  /** Heads of one length decide the order of the whole, unless they are equal. */
  lemma {:induction false} LessByHead(h: seq<int>, i: seq<int>, a: seq<int>, b: seq<int>)
    requires |h| == |i|
    ensures Less(h + a, i + b) <==> Less(h, i) || (h == i && Less(a, b))
  {
    if h == [] {
      assert h + a == a && i + b == b;
    } else {
      LessByHead(h[1..], i[1..], a, b);
      assert (h + a)[1..] == h[1..] + a && (i + b)[1..] == i[1..] + b;
      assert h == [h[0]] + h[1..] && i == [i[0]] + i[1..];
      if h[0] == i[0] && h[1..] == i[1..] { LessIrreflexive(h[1..]); }
    }
  }
}
