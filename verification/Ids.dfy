/** The reference model's own spelling of keys: fixed-width hexadecimal behind a constant letter.
    It orders and lists exactly as the keys themselves do. */
module Ids {
  import opened Bytes
  import opened Tables
  import opened Scan

  /** The character code of a hexadecimal digit, lower case. */
  function Digit(n: nat): (c: Byte)
    requires n < 16
  {
    if n < 10 then 48 + n else 87 + n
  }

  /** Either case is read. */
  function DigitValue(c: Byte): (v: Option<nat>)
    ensures v.Some? ==> v.value < 16
  {
    if 48 <= c <= 57 then Some(c - 48)
    else if 97 <= c <= 102 then Some(c - 87)
    else if 65 <= c <= 70 then Some(c - 55)
    else None
  }

  predicate UpperCase(c: Byte) { 65 <= c <= 70 }

  function Hex(x: Bytes): (h: Bytes)
    ensures |h| == 2 * |x|
  {
    if x == [] then [] else [Digit(x[0] / 16), Digit(x[0] % 16)] + Hex(x[1..])
  }

  /** raw_id(): the letter k, then two digits a byte. */
  function RawId(x: Bytes): Bytes { [107] + Hex(x) }

  /** Two digits to a byte. Text that is not pairs of digits stands for nothing. */
  function UnHex(h: Bytes): (x: Option<Bytes>)
    ensures x.Some? ==> |h| == 2 * |x.value|
  {
    if h == [] then Some([])
    else if |h| == 1 then None
    else if DigitValue(h[0]).None? || DigitValue(h[1]).None? then None
    else match UnHex(h[2..])
      case None => None
      case Some(rest) => Some([DigitValue(h[0]).value * 16 + DigitValue(h[1]).value] + rest)
  }

  /** id_raw(): everything after the first character. */
  function IdRaw(id: Bytes): Option<Bytes> { UnHex(if id == [] then [] else id[1..]) }

  lemma {:induction false} UnHexHex(x: Bytes)
    ensures UnHex(Hex(x)) == Some(x)
  {
    if x != [] {
      UnHexHex(x[1..]);
      assert Hex(x)[2..] == Hex(x[1..]);
      assert x == [x[0]] + x[1..];
    }
  }

  predicate Canonical(h: Bytes) { forall c :: c in h ==> !UpperCase(c) }

  lemma PairOfDigits(a: Byte, b: Byte)
    requires DigitValue(a).Some? && DigitValue(b).Some? && !UpperCase(a) && !UpperCase(b)
    ensures var n := DigitValue(a).value * 16 + DigitValue(b).value;
            Digit(n / 16) == a && Digit(n % 16) == b
  {}

  lemma HexCons(b: Byte, x: Bytes)
    ensures Hex([b] + x) == [Digit(b / 16), Digit(b % 16)] + Hex(x)
  {}

  lemma {:induction false} HexUnHex(h: Bytes)
    requires UnHex(h).Some? && Canonical(h)
    ensures Hex(UnHex(h).value) == h
  {
    if h != [] {
      assert h[0] in h && h[1] in h && forall c :: c in h[2..] ==> c in h;
      HexUnHex(h[2..]);
      PairOfDigits(h[0], h[1]);
      var rest := UnHex(h[2..]).value;
      HexCons(DigitValue(h[0]).value * 16 + DigitValue(h[1]).value, rest);
      assert h == [h[0], h[1]] + h[2..];
    }
  }

  lemma {:induction false} HexCanonical(x: Bytes)
    ensures Canonical(Hex(x))
  {
    if x != [] { HexCanonical(x[1..]); }
  }

  /** id_raw() inverts raw_id(); raw_id() inverts id_raw() exactly on text that it could have
      written itself. */
  lemma IdsInvert(x: Bytes, id: Bytes)
    ensures IdRaw(RawId(x)) == Some(x)
    ensures IdRaw(id).Some? ==>
              (RawId(IdRaw(id).value) == id <==> id != [] && id[0] == 107 && Canonical(id[1..]))
  {
    UnHexHex(x);
    assert RawId(x)[1..] == Hex(x);
    if id != [] && IdRaw(id).Some? {
      assert id == [id[0]] + id[1..];
      if Canonical(id[1..]) { HexUnHex(id[1..]); }
      HexCanonical(IdRaw(id).value);
      assert RawId(IdRaw(id).value)[1..] == Hex(IdRaw(id).value);
    }
  }

  lemma {:induction false} HexOrder(a: Bytes, b: Bytes)
    ensures Less(Hex(a), Hex(b)) <==> Less(a, b)
  {
    if a != [] && b != [] {
      HexOrder(a[1..], b[1..]);
      LessByHead([Digit(a[0] / 16), Digit(a[0] % 16)], [Digit(b[0] / 16), Digit(b[0] % 16)],
                 Hex(a[1..]), Hex(b[1..]));
    }
  }

  /** Text order of the ids is byte order of the keys. */
  lemma IdOrder(a: Bytes, b: Bytes)
    ensures Less(RawId(a), RawId(b)) <==> Less(a, b)
    ensures RawId(a) == RawId(b) <==> a == b
  {
    HexOrder(a, b);
    LessSamePrefix([107], Hex(a), Hex(b));
    if RawId(a) == RawId(b) { IdsInvert(a, []); IdsInvert(b, []); }
  }

  function RawIds(keys: seq<Bytes>): (ids: seq<Bytes>)
    ensures |ids| == |keys| && forall i :: 0 <= i < |keys| ==> ids[i] == RawId(keys[i])
  {
    seq(|keys|, i requires 0 <= i < |keys| => RawId(keys[i]))
  }

  function RawIdOf(start: Option<Bytes>): Option<Bytes> {
    match start
    case None => None
    case Some(k) => Some(RawId(k))
  }

  lemma {:induction false} KeptIds(keys: seq<Bytes>, start: Option<Bytes>, reverse: bool)
    ensures Kept(RawIds(keys), RawIdOf(start), reverse) == RawIds(Kept(keys, start, reverse))
  {
    if keys != [] {
      KeptIds(keys[1..], start, reverse);
      assert RawIds(keys)[1..] == RawIds(keys[1..]);
      if start.Some? {
        IdOrder(keys[0], start.value);
        IdOrder(start.value, keys[0]);
      }
    }
  }

  lemma RawIdsSorted(keys: seq<Bytes>)
    requires Sorted(keys)
    ensures Sorted(RawIds(keys))
  {
    forall i, j | 0 <= i < j < |keys| ensures Less(RawIds(keys)[i], RawIds(keys)[j]) {
      IdOrder(keys[i], keys[j]);
    }
  }

  lemma TakeIds(keys: seq<Bytes>, n: nat)
    ensures Take(RawIds(keys), n) == RawIds(Take(keys, n))
  {}

  lemma OrderedIds(keys: seq<Bytes>, reverse: bool)
    ensures (if reverse then Scan.Reverse(RawIds(keys)) else RawIds(keys))
         == RawIds(if reverse then Scan.Reverse(keys) else keys)
  {}

  /** The model's listing of ids is the listing of keys, spelled as ids: sorting, filtering and
      cutting off may be done on either. */
  lemma ModelListsTheSame(keys: seq<Bytes>, limit: nat, start: Option<Bytes>, reverse: bool)
    requires Sorted(keys)
    ensures Sorted(RawIds(keys))
    ensures ExpectedKeys(RawIds(keys), limit, RawIdOf(start), reverse)
         == RawIds(ExpectedKeys(keys, limit, start, reverse))
  {
    RawIdsSorted(keys);
    OrderedIds(keys, reverse);
    var ordered := if reverse then Scan.Reverse(keys) else keys;
    KeptIds(ordered, start, reverse);
    TakeIds(Kept(ordered, start, reverse), limit);
  }
}
