/** Environment flags: a bitmask in libmdbx, a vector of names in R. */
module Flags {
  import opened Bytes

  datatype FlagName =
    | UTTERLY_NOSYNC | SAFE_NOSYNC | NOMETASYNC | WRITEMAP | LIFORECLAIM | NORDAHEAD | NOMEMINIT
    | EXCLUSIVE | ACCEDE | VALIDATION | RDONLY | NOSUBDIR | NOSTICKYTHREADS | Unlisted(spelling: string)

  /** An unsigned: the positions of the bits that are set, so that `&` is intersection and `|` is
      union. */
  type Word = s: set<nat> | forall b :: b in s ==> b < 32

  datatype FlagEntry = FlagEntry(name: FlagName, bit: Word)

  predicate Within(a: Word, b: Word) { b * a == a }

  /** A flag is set when all of its bits are. */
  predicate Present(word: Word, e: FlagEntry) { Within(e.bit, word) }

  /** What the table of environment flags promises: names once each, and UTTERLY_NOSYNC containing
      SAFE_NOSYNC. */
  predicate Tabled(table: seq<FlagEntry>) {
    && (forall i, j :: 0 <= i < j < |table| ==> table[i].name != table[j].name)
    && (forall i, j | 0 <= i < |table| && 0 <= j < |table| ::
          table[i].name.UTTERLY_NOSYNC? && table[j].name.SAFE_NOSYNC? ==>
            Within(table[j].bit, table[i].bit))
  }

  // -------------------------------------------------------------------------
  // Names to bits
  // -------------------------------------------------------------------------

  function BitOf(table: seq<FlagEntry>, name: FlagName): Option<Word> {
    if table == [] then None
    else if table[0].name == name then Some(table[0].bit)
    else BitOf(table[1..], name)
  }

  function BitsOf(table: seq<FlagEntry>, names: seq<FlagName>): Option<Word> {
    if names == [] then Some({})
    else match (BitOf(table, names[0]), BitsOf(table, names[1..]))
      case (Some(b), Some(rest)) => Some(b + rest)
      case _ => None
  }

  lemma {:induction false} BitOfAt(table: seq<FlagEntry>, i: nat)
    requires Tabled(table) && i < |table|
    ensures BitOf(table, table[i].name) == Some(table[i].bit)
  {
    if i > 0 { BitOfAt(table[1..], i - 1); }
  }

  lemma {:induction false} BitOfNone(table: seq<FlagEntry>, name: FlagName)
    requires forall i :: 0 <= i < |table| ==> table[i].name != name
    ensures BitOf(table, name) == None
  {
    if table != [] { BitOfNone(table[1..], name); }
  }

  lemma {:induction false} BitsOfSnoc(table: seq<FlagEntry>, names: seq<FlagName>, name: FlagName)
    ensures BitsOf(table, names + [name]) ==
            match (BitsOf(table, names), BitOf(table, name))
            case (Some(bits), Some(b)) => Some(bits + b)
            case _ => None
  {
    if names == [] {
      assert names + [name] == [name];
      assert [name][1..] == [];
      if BitOf(table, name).Some? {
        assert BitOf(table, name).value + {} == {} + BitOf(table, name).value;
      }
    } else {
      assert (names + [name])[1..] == names[1..] + [name];
      BitsOfSnoc(table, names[1..], name);
      match (BitOf(table, names[0]), BitsOf(table, names[1..]), BitOf(table, name))
      case (Some(a), Some(b), Some(c)) => assert a + (b + c) == (a + b) + c;
      case _ =>
    }
  }

  lemma {:induction false} BitsOfUnknown(table: seq<FlagEntry>, names: seq<FlagName>, i: nat)
    requires i < |names| && BitOf(table, names[i]) == None
    ensures BitsOf(table, names) == None
  {
    if i > 0 { BitsOfUnknown(table, names[1..], i - 1); }
  }

  /** bits_from: None where the source stops with "unknown mdbx flag". */
  method BitsFrom(table: seq<FlagEntry>, names: seq<FlagName>) returns (r: Option<Word>)
    requires Tabled(table)
    ensures r == BitsOf(table, names)
  {
    var bits: Word := {};
    for i := 0 to |names|
      invariant BitsOf(table, names[..i]) == Some(bits)
    {
      var found := false;
      for j := 0 to |table|
        invariant !found && forall k :: 0 <= k < j ==> table[k].name != names[i]
        invariant BitsOf(table, names[..i]) == Some(bits)
      {
        if names[i] == table[j].name {
          BitOfAt(table, j);
          BitsOfSnoc(table, names[..i], names[i]);
          bits := bits + table[j].bit;
          found := true;
          break;
        }
      }
      if !found {
        BitOfNone(table, names[i]);
        BitsOfUnknown(table, names, i);
        return None;
      }
      assert names[..i + 1] == names[..i] + [names[i]];
    }
    assert names[..|names|] == names;
    return Some(bits);
  }

  // -------------------------------------------------------------------------
  // Bits to names
  // -------------------------------------------------------------------------

  /** What is reported from the rest of the table once `utterly` is known. */
  function Reported(table: seq<FlagEntry>, word: Word, utterly: bool): seq<FlagName> {
    if table == [] then []
    else
      var e := table[0];
      if !Present(word, e) then Reported(table[1..], word, utterly)
      else
        var u := utterly || e.name.UTTERLY_NOSYNC?;
        (if u && e.name.SAFE_NOSYNC? then [] else [e.name]) + Reported(table[1..], word, u)
  }

  /** names_from. */
  method NamesFrom(table: seq<FlagEntry>, word: Word) returns (out: seq<FlagName>)
    ensures out == Reported(table, word, false)
  {
    out := [];
    var utterly := false;
    for i := 0 to |table|
      invariant out + Reported(table[i..], word, utterly) == Reported(table, word, false)
    {
      var e := table[i];
      assert table[i..][1..] == table[i + 1..];
      if !Present(word, e) {
        continue;
      }
      if e.name.UTTERLY_NOSYNC? {
        utterly := true;
      }
      if utterly && e.name.SAFE_NOSYNC? {
        continue;
      }
      out := out + [e.name];
    }
  }

  // -------------------------------------------------------------------------
  // There and back
  // -------------------------------------------------------------------------

  /** The bits of the entries that are fully present. */
  function Union(table: seq<FlagEntry>, word: Word): Word {
    if table == [] then {}
    else (if Present(word, table[0]) then table[0].bit else {}) + Union(table[1..], word)
  }

  /** Reading reported names back, from any point of the table on. Leaving SAFE_NOSYNC out loses
      nothing once UTTERLY_NOSYNC is in. */
  lemma {:induction false} ReportedBits(table: seq<FlagEntry>, i: nat, word: Word, utterly: bool, u: Word)
    requires Tabled(table) && i <= |table|
    requires utterly ==> forall j | 0 <= j < |table| && table[j].name.SAFE_NOSYNC? :: Within(table[j].bit, u)
    ensures var r := BitsOf(table, Reported(table[i..], word, utterly));
            r.Some? && if utterly then r.value + u == Union(table[i..], word) + u
                       else r.value == Union(table[i..], word)
    decreases |table| - i
  {
    if i < |table| {
      var e := table[i];
      var rest := table[i + 1..];
      assert table[i..][1..] == rest;
      if !Present(word, e) {
        ReportedBits(table, i + 1, word, utterly, u);
      } else {
        var v := utterly || e.name.UTTERLY_NOSYNC?;
        var w := if utterly then u else e.bit;
        ReportedBits(table, i + 1, word, v, w);
        BitOfAt(table, i);
        var names := Reported(rest, word, v);
        assert [] + names == names && ([e.name] + names)[1..] == names;
      }
    }
  }

  /** bits_from(names_from(word)) is the union of the entries present in the word. */
  lemma NamesKeepBits(table: seq<FlagEntry>, word: Word)
    requires Tabled(table)
    ensures BitsOf(table, Reported(table, word, false)) == Some(Union(table, word))
  {
    assert table[0..] == table;
    ReportedBits(table, 0, word, false, {});
  }

  lemma WithinIsSubset(a: Word, b: Word)
    ensures Within(a, b) <==> a <= b
  {}

  lemma {:induction false} UnionWithin(table: seq<FlagEntry>, word: Word)
    ensures Union(table, word) <= word
  {
    if table != [] {
      UnionWithin(table[1..], word);
      WithinIsSubset(table[0].bit, word);
    }
  }

  lemma {:induction false} UnionHolds(table: seq<FlagEntry>, word: Word, i: nat)
    requires i < |table| && Present(word, table[i])
    ensures table[i].bit <= Union(table, word)
  {
    if i > 0 { UnionHolds(table[1..], word, i - 1); }
  }

  lemma PresentInUnion(table: seq<FlagEntry>, word: Word, i: nat)
    requires i < |table|
    ensures Present(Union(table, word), table[i]) <==> Present(word, table[i])
  {
    UnionWithin(table, word);
    WithinIsSubset(table[i].bit, word);
    WithinIsSubset(table[i].bit, Union(table, word));
    if Present(word, table[i]) { UnionHolds(table, word, i); }
  }

  lemma {:induction false} ReportedAgrees(table: seq<FlagEntry>, v: Word, w: Word, utterly: bool)
    requires forall i :: 0 <= i < |table| ==> (Present(v, table[i]) <==> Present(w, table[i]))
    ensures Reported(table, v, utterly) == Reported(table, w, utterly)
  {
    if table != [] {
      ReportedAgrees(table[1..], v, w, utterly);
      ReportedAgrees(table[1..], v, w, true);
    }
  }

  /** Reporting is stable: the names of the bits the names stand for are the names again. */
  lemma NamesAreStable(table: seq<FlagEntry>, word: Word)
    requires Tabled(table)
    ensures BitsOf(table, Reported(table, word, false)).Some?
    ensures Reported(table, BitsOf(table, Reported(table, word, false)).value, false)
         == Reported(table, word, false)
  {
    NamesKeepBits(table, word);
    forall i | 0 <= i < |table|
      ensures Present(Union(table, word), table[i]) <==> Present(word, table[i])
    {
      PresentInUnion(table, word, i);
    }
    ReportedAgrees(table, Union(table, word), word, false);
  }

  // -------------------------------------------------------------------------
  // One mode, one name
  // -------------------------------------------------------------------------

  predicate UtterlyFirst(table: seq<FlagEntry>) {
    forall i, j :: 0 <= i < j < |table| && table[i].name.SAFE_NOSYNC? ==> !table[j].name.UTTERLY_NOSYNC?
  }

  lemma {:induction false} ReportedNames(table: seq<FlagEntry>, word: Word, utterly: bool, name: FlagName)
    requires forall i :: 0 <= i < |table| ==> table[i].name != name
    ensures name !in Reported(table, word, utterly)
  {
    if table != [] {
      ReportedNames(table[1..], word, utterly, name);
      ReportedNames(table[1..], word, true, name);
    }
  }

  lemma {:induction false} SafeSuppressed(table: seq<FlagEntry>, word: Word)
    ensures SAFE_NOSYNC !in Reported(table, word, true)
  {
    if table != [] { SafeSuppressed(table[1..], word); }
  }

  lemma {:induction false} NotBoth(table: seq<FlagEntry>, word: Word)
    requires UtterlyFirst(table)
    ensures !(UTTERLY_NOSYNC in Reported(table, word, false) && SAFE_NOSYNC in Reported(table, word, false))
  {
    if table != [] {
      NotBoth(table[1..], word);
      SafeSuppressed(table[1..], word);
      if table[0].name.SAFE_NOSYNC? { ReportedNames(table[1..], word, false, UTTERLY_NOSYNC); }
    }
  }

  lemma {:induction false} ReportsPresent(table: seq<FlagEntry>, word: Word, i: nat, utterly: bool)
    requires i < |table| && Present(word, table[i]) && !table[i].name.SAFE_NOSYNC?
    ensures table[i].name in Reported(table, word, utterly)
  {
    if i > 0 {
      ReportsPresent(table[1..], word, i - 1, utterly);
      ReportsPresent(table[1..], word, i - 1, true);
    }
  }

  lemma {:induction false} ReportsEarlySafe(table: seq<FlagEntry>, word: Word, i: nat)
    requires i < |table| && Present(word, table[i]) && table[i].name.SAFE_NOSYNC?
    requires forall j :: 0 <= j < i ==> !table[j].name.UTTERLY_NOSYNC?
    ensures SAFE_NOSYNC in Reported(table, word, false)
  {
    if i > 0 { ReportsEarlySafe(table[1..], word, i - 1); }
  }

  /** One mode is never reported as two exactly because the table lists UTTERLY_NOSYNC first. */
  lemma NeverBothIff(table: seq<FlagEntry>)
    requires Tabled(table)
    ensures (forall word: Word :: !(UTTERLY_NOSYNC in Reported(table, word, false)
                                    && SAFE_NOSYNC in Reported(table, word, false)))
            <==> UtterlyFirst(table)
  {
    if UtterlyFirst(table) {
      forall word: Word
        ensures !(UTTERLY_NOSYNC in Reported(table, word, false)
                  && SAFE_NOSYNC in Reported(table, word, false))
      {
        NotBoth(table, word);
      }
    } else {
      var i, j :| 0 <= i < j < |table| && table[i].name.SAFE_NOSYNC? && table[j].name.UTTERLY_NOSYNC?;
      var word := table[j].bit;
      assert Present(word, table[j]);
      ReportsPresent(table, word, j, false);
      ReportsEarlySafe(table, word, i);
    }
  }

  // -------------------------------------------------------------------------
  // The table
  // -------------------------------------------------------------------------

  const ENV_NAMES := [
    UTTERLY_NOSYNC, SAFE_NOSYNC, NOMETASYNC, WRITEMAP, LIFORECLAIM, NORDAHEAD, NOMEMINIT,
    EXCLUSIVE, ACCEDE, VALIDATION, RDONLY, NOSUBDIR, NOSTICKYTHREADS]

  /** env_flags, given the bits mdbx.h has for each name. */
  function EnvFlags(bit: FlagName -> Word): (table: seq<FlagEntry>)
    ensures |table| == |ENV_NAMES|
    ensures forall i :: 0 <= i < |table| ==> table[i] == FlagEntry(ENV_NAMES[i], bit(ENV_NAMES[i]))
  {
    seq(|ENV_NAMES|, i requires 0 <= i < |ENV_NAMES| => FlagEntry(ENV_NAMES[i], bit(ENV_NAMES[i])))
  }

  /** All that matters about the bits is that UTTERLY_NOSYNC is a superset of SAFE_NOSYNC. */
  lemma EnvFlagsAreTabled(bit: FlagName -> Word)
    ensures Tabled(EnvFlags(bit)) <==> Within(bit(SAFE_NOSYNC), bit(UTTERLY_NOSYNC))
    ensures UtterlyFirst(EnvFlags(bit))
  {
    var table := EnvFlags(bit);
    ListedOnce();
    assert ENV_NAMES[0] == UTTERLY_NOSYNC && ENV_NAMES[1] == SAFE_NOSYNC;
    assert table[0] == FlagEntry(UTTERLY_NOSYNC, bit(UTTERLY_NOSYNC));
    assert table[1] == FlagEntry(SAFE_NOSYNC, bit(SAFE_NOSYNC));
  }

  /** Where a known name stands in the table. */
  lemma Listed(name: FlagName) returns (i: nat)
    requires !name.Unlisted?
    ensures i < |ENV_NAMES| && ENV_NAMES[i] == name
  {
    match name
    case UTTERLY_NOSYNC => i := 0;
    case SAFE_NOSYNC => i := 1;
    case NOMETASYNC => i := 2;
    case WRITEMAP => i := 3;
    case LIFORECLAIM => i := 4;
    case NORDAHEAD => i := 5;
    case NOMEMINIT => i := 6;
    case EXCLUSIVE => i := 7;
    case ACCEDE => i := 8;
    case VALIDATION => i := 9;
    case RDONLY => i := 10;
    case NOSUBDIR => i := 11;
    case NOSTICKYTHREADS => i := 12;
  }

  lemma ListedOnce()
    ensures forall i, j :: 0 <= i < j < |ENV_NAMES| ==> ENV_NAMES[i] != ENV_NAMES[j]
    ensures forall i :: 0 <= i < |ENV_NAMES| ==> !ENV_NAMES[i].Unlisted?
  {}

  /** Every name the package knows is in the table, once, and no other is. */
  lemma EnvFlagsKnow(bit: FlagName -> Word, name: FlagName)
    ensures BitOf(EnvFlags(bit), name) == if name.Unlisted? then None else Some(bit(name))
  {
    var table := EnvFlags(bit);
    ListedOnce();
    if name.Unlisted? {
      BitOfNone(table, name);
    } else {
      var i := Listed(name);
      BitOfNamed(table, i);
    }
  }

  lemma {:induction false} BitOfNamed(table: seq<FlagEntry>, i: nat)
    requires i < |table| && forall j, k :: 0 <= j < k < |table| ==> table[j].name != table[k].name
    ensures BitOf(table, table[i].name) == Some(table[i].bit)
  {
    if i > 0 { BitOfNamed(table[1..], i - 1); }
  }

  /** So a vector of names is refused exactly if one of them is unknown, and otherwise stands for the
      bits that some name in it has. */
  lemma {:induction false} NamesMeanTheirBits(bit: FlagName -> Word, names: seq<FlagName>)
    ensures var r := BitsOf(EnvFlags(bit), names);
            && (r == None <==> exists i :: 0 <= i < |names| && names[i].Unlisted?)
            && (r.Some? ==> forall b: nat ::
                  b in r.value <==> exists i :: 0 <= i < |names| && b in bit(names[i]))
  {
    if names != [] {
      NamesMeanTheirBits(bit, names[1..]);
      EnvFlagsKnow(bit, names[0]);
      assert names == [names[0]] + names[1..];
    }
  }

  /** Which names are reported of a word: those whose bits it all has, but not SAFE_NOSYNC when it has
      UTTERLY_NOSYNC's. */
  lemma ReportedIff(bit: FlagName -> Word, word: Word, name: FlagName)
    ensures name in Reported(EnvFlags(bit), word, false) <==>
            && !name.Unlisted? && Within(bit(name), word)
            && !(name.SAFE_NOSYNC? && Within(bit(UTTERLY_NOSYNC), word))
  {
    var table := EnvFlags(bit);
    ListedOnce();
    ReportedMeans(table, word, false, name);
    if !name.Unlisted? {
      var i := Listed(name);
      FirstIsUtterly(bit, word, i);
    }
  }

  lemma FirstIsUtterly(bit: FlagName -> Word, word: Word, i: nat)
    requires i < |ENV_NAMES|
    ensures var name := ENV_NAMES[i];
            ReportsAt(EnvFlags(bit), word, false, i, name) <==>
              && Within(bit(name), word)
              && !(name.SAFE_NOSYNC? && Within(bit(UTTERLY_NOSYNC), word))
  {
    ListedOnce();
    assert ENV_NAMES[0] == UTTERLY_NOSYNC && ENV_NAMES[1] == SAFE_NOSYNC;
    assert EnvFlags(bit)[0] == FlagEntry(UTTERLY_NOSYNC, bit(UTTERLY_NOSYNC));
  }

  /** In a table that lists names once. */
  lemma {:induction false} ReportedMeans(table: seq<FlagEntry>, word: Word, utterly: bool, name: FlagName)
    requires forall j, k :: 0 <= j < k < |table| ==> table[j].name != table[k].name
    ensures name in Reported(table, word, utterly) <==>
            exists i :: 0 <= i < |table| && ReportsAt(table, word, utterly, i, name)
  {
    if table != [] {
      var u := utterly || (Present(word, table[0]) && table[0].name.UTTERLY_NOSYNC?);
      ReportedMeans(table[1..], word, u, name);
      if name in Reported(table[1..], word, u) {
        var i :| 0 <= i < |table| - 1 && ReportsAt(table[1..], word, u, i, name);
        ReportsLater(table, word, utterly, i, name);
      }
      if i :| 0 < i < |table| && ReportsAt(table, word, utterly, i, name) {
        ReportsLater(table, word, utterly, i - 1, name);
      }
      if ReportsAt(table, word, utterly, 0, name) {
        assert name == table[0].name && Present(word, table[0]);
      }
      assert table[0].name == name && Present(word, table[0]) && !(u && name.SAFE_NOSYNC?) ==>
          ReportsAt(table, word, utterly, 0, name);
    }
  }

  predicate ReportsAt(table: seq<FlagEntry>, word: Word, utterly: bool, i: nat, name: FlagName)
    requires i < |table|
  {
    && table[i].name == name && Present(word, table[i])
    && (name.SAFE_NOSYNC? ==>
          !utterly && forall j :: 0 <= j < i && table[j].name.UTTERLY_NOSYNC? ==> !Present(word, table[j]))
  }

  lemma ReportsLater(table: seq<FlagEntry>, word: Word, utterly: bool, i: nat, name: FlagName)
    requires i + 1 < |table|
    ensures var u := utterly || (Present(word, table[0]) && table[0].name.UTTERLY_NOSYNC?);
            ReportsAt(table[1..], word, u, i, name) <==> ReportsAt(table, word, utterly, i + 1, name)
  {
    var u := utterly || (Present(word, table[0]) && table[0].name.UTTERLY_NOSYNC?);
    if ReportsAt(table[1..], word, u, i, name) {
      forall j | 0 <= j < i + 1 && table[j].name.UTTERLY_NOSYNC? && name.SAFE_NOSYNC?
        ensures !Present(word, table[j])
      {
        if j > 0 { assert table[j] == table[1..][j - 1]; }
      }
    }
    if ReportsAt(table, word, utterly, i + 1, name) {
      forall j | 0 <= j < i && table[1..][j].name.UTTERLY_NOSYNC? && name.SAFE_NOSYNC?
        ensures !Present(word, table[1..][j])
      {
        assert table[1..][j] == table[j + 1];
      }
    }
  }
}
