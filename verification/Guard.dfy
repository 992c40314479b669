/** The boundary below which libmdbx runs. A panic inside it jumps out to the innermost guard, which
    marks what the call was working on before anything else happens. */
module Guard {
  import opened Bytes

  const NUL := '\0'
  const MESSAGE_SIZE := 256
  const FUNCTION_SIZE := 128

  // -------------------------------------------------------------------------
  // The bounded copy
  // -------------------------------------------------------------------------

  /** Memory holding a C string: it may go on past the terminator. */
  type CString = s: seq<char> | NUL in s witness ['\0']

  /** The text of memory: everything before the first terminator. */
  function Text(s: seq<char>): (t: seq<char>)
    ensures |t| <= |s| && t == s[..|t|] && NUL !in t
    ensures |t| < |s| ==> s[|t|] == NUL
  {
    if s == [] || s[0] == NUL then [] else [s[0]] + Text(s[1..])
  }

  /** A text cut off where the terminator has to go. */
  function Fit(text: seq<char>, size: nat): seq<char>
    requires size > 0
  {
    if |text| < size then text else text[..size - 1]
  }

  /** Nothing longer fits. */
  lemma FitIsLongest(text: seq<char>, size: nat, p: seq<char>)
    requires size > 0 && p <= text
    ensures Fit(text, size) <= text && |Fit(text, size)| + 1 <= size
    ensures |p| + 1 <= size <==> p <= Fit(text, size)
  {}

  lemma {:induction false} TextIs(s: seq<char>, t: seq<char>)
    requires |t| < |s| && t == s[..|t|] && s[|t|] == NUL && NUL !in t
    ensures Text(s) == t
  {}

  /** mdbx_r_copy_text. A null source leaves an empty text; no room at all leaves the destination
      alone. */
  method CopyText(destination: array<char>, size: nat, source: Option<CString>)
    requires size <= destination.Length
    modifies destination
    ensures size == 0 ==> destination[..] == old(destination[..])
    ensures size > 0 ==>
              Text(destination[..]) == if source.Some? then Fit(Text(source.value), size) else []
    ensures destination[size..] == old(destination[size..])
  {
    var index := 0;
    if size == 0 {
      return;
    }
    if source.Some? {
      var s: seq<char> := source.value;
      while index + 1 < size && s[index] != NUL
        invariant index < size && index < |s|
        invariant index <= |Text(s)| && destination[..index] == s[..index]
        invariant destination[size..] == old(destination[size..])
      {
        StillBefore(s, index);
        destination[index] := s[index];
        index := index + 1;
      }
    }
    destination[index] := NUL;
    ghost var text := if source.Some? then Text(source.value) else [];
    assert destination[..index] == Fit(text, size);
    TextIs(destination[..], Fit(text, size));
  }

  lemma StillBefore(s: CString, index: nat)
    requires index < |s| && index <= |Text(s)| && s[index] != NUL
    ensures index < |Text(s)| && index + 1 < |s|
  {}

  // -------------------------------------------------------------------------
  // What runs below the boundary
  // -------------------------------------------------------------------------

  /** Native code: work, guarded calls nested in it, panics. A guarded call that panicked returns
      like any other and the code goes on. */
  datatype Code = Done | Then(first: Stmt, rest: Code)

  datatype Stmt =
    | Work(n: nat)
    | Panics(msg: Option<CString>, func: Option<CString>, line: nat)
    | Guarded(body: Code, poison: Option<nat>)

  datatype PanicInfo = PanicInfo(message: seq<char>, func: seq<char>, line: nat)

  /** Guarded calls are numbered in the order they begin. */
  datatype Trace =
    | Worked(n: nat)
    | Began(guard: nat, poison: Option<nat>)
    | Raised(panic: PanicInfo)
    | Poisoned(guard: nat, what: nat)
    | Returned(guard: nat, panicked: bool, info: Option<PanicInfo>)

  /** What should happen: the trace, the panic that nothing in `code` contained, and the number the
      next guarded call would have. */
  datatype Meaning = Meaning(trace: seq<Trace>, escapes: Option<PanicInfo>, next: nat)

  function Recorded(msg: Option<CString>, func: Option<CString>, line: nat): PanicInfo {
    FromMemory(MemoryOr(msg, UNKNOWN_ASSERTION), MemoryOr(func, UNKNOWN_FUNCTION), line)
  }

  /** The message is the message's text and the function's name the function's, each as much of it as
      there is room for, and all of it if it fits. */
  lemma RecordedSays(msg: Option<CString>, func: Option<CString>, line: nat)
    ensures var r := Recorded(msg, func, line);
            var m := if msg.Some? then Text(msg.value) else UNKNOWN_ASSERTION;
            var f := if func.Some? then Text(func.value) else UNKNOWN_FUNCTION;
            && r.line == line
            && r.message <= m && |r.message| < MESSAGE_SIZE
            && (|m| < MESSAGE_SIZE ==> r.message == m)
            && r.func <= f && |r.func| < FUNCTION_SIZE
            && (|f| < FUNCTION_SIZE ==> r.func == f)
  {
    MemoryHoldsText(msg, UNKNOWN_ASSERTION);
    MemoryHoldsText(func, UNKNOWN_FUNCTION);
  }

  function FromMemory(message: CString, func: CString, line: nat): PanicInfo {
    PanicInfo(Fit(Text(message), MESSAGE_SIZE), Fit(Text(func), FUNCTION_SIZE), line)
  }

  type Words = s: string | NUL !in s witness ""

  const UNKNOWN_ASSERTION: Words := "(unknown assertion)"
  const UNKNOWN_FUNCTION: Words := "(unknown function)"

  function MemoryOr(s: Option<CString>, unknown: Words): CString {
    if s.Some? then s.value else unknown + [NUL]
  }

  /** A null text reads as the words put in its place. */
  lemma MemoryHoldsText(s: Option<CString>, unknown: Words)
    ensures Text(MemoryOr(s, unknown)) == if s.Some? then Text(s.value) else unknown
  {
    if s.None? { TextIs(unknown + [NUL], unknown); }
  }

  /** How a guarded call ends, given the panic that got out of its body. */
  function Ending(guard: nat, panic: Option<PanicInfo>, poison: Option<nat>): seq<Trace> {
    (if panic.Some? && poison.Some? then [Poisoned(guard, poison.value)] else [])
    + [Returned(guard, panic.Some?, panic)]
  }

  function Caught(guard: nat, m: Meaning, poison: Option<nat>): seq<Trace> {
    [Began(guard, poison)] + m.trace + Ending(guard, m.escapes, poison)
  }

  function Meant(code: Code, next: nat): (m: Meaning)
    ensures m.next >= next
  {
    match code
    case Done => Meaning([], None, next)
    case Then(Work(n), rest) =>
      var m := Meant(rest, next);
      Meaning([Worked(n)] + m.trace, m.escapes, m.next)
    case Then(Panics(msg, func, line), _) =>
      Meaning([Raised(Recorded(msg, func, line))], Some(Recorded(msg, func, line)), next)
    case Then(Guarded(body, poison), rest) =>
      var b := Meant(body, next + 1);
      var m := Meant(rest, b.next);
      Meaning(Caught(next, b, poison) + m.trace, m.escapes, m.next)
  }

  /** A poison callback runs at the very end of the guarded call it belongs to, which panicked, and
      at no other time. */
  predicate Prompt(trace: seq<Trace>) {
    forall i :: 0 <= i < |trace| && trace[i].Poisoned? ==>
      i + 1 < |trace| && trace[i + 1].Returned? && trace[i + 1].panicked
      && trace[i + 1].guard == trace[i].guard
  }

  /** No guarded call begins or returns twice. */
  predicate ReturnsOnce(trace: seq<Trace>) {
    && (forall i, j :: 0 <= i < j < |trace| && trace[i].Returned? && trace[j].Returned? ==>
          trace[i].guard != trace[j].guard)
    && (forall i, j :: 0 <= i < j < |trace| && trace[i].Began? && trace[j].Began? ==>
          trace[i].guard != trace[j].guard)
  }

  predicate Numbered(trace: seq<Trace>, from: nat, upto: nat) {
    forall i :: 0 <= i < |trace| && (trace[i].Began? || trace[i].Poisoned? || trace[i].Returned?) ==>
      from <= trace[i].guard < upto
  }

  lemma PromptJoins(a: seq<Trace>, b: seq<Trace>)
    requires Prompt(a) && Prompt(b)
    ensures Prompt(a + b)
  {}

  lemma OnceJoins(a: seq<Trace>, b: seq<Trace>, p: nat, q: nat, r: nat, s: nat)
    requires ReturnsOnce(a) && ReturnsOnce(b) && Numbered(a, p, q) && Numbered(b, r, s)
    requires q <= r || s <= p
    ensures ReturnsOnce(a + b)
  {}

  lemma NumberedJoins(a: seq<Trace>, b: seq<Trace>, from: nat, upto: nat)
    requires Numbered(a, from, upto) && Numbered(b, from, upto)
    ensures Numbered(a + b, from, upto)
  {}

  lemma EndingPrompt(guard: nat, panic: Option<PanicInfo>, poison: Option<nat>)
    ensures Prompt(Ending(guard, panic, poison)) && ReturnsOnce(Ending(guard, panic, poison))
    ensures Numbered(Ending(guard, panic, poison), guard, guard + 1)
  {}

  lemma {:induction false} PoisonThenReturn(code: Code, next: nat)
    ensures Prompt(Meant(code, next).trace)
  {
    match code
    case Done =>
    case Then(Work(n), rest) =>
      PoisonThenReturn(rest, next);
      PromptJoins([Worked(n)], Meant(rest, next).trace);
    case Then(Panics(_, _, _), _) =>
    case Then(Guarded(body, poison), rest) =>
      var b := Meant(body, next + 1);
      PoisonThenReturn(body, next + 1);
      PoisonThenReturn(rest, b.next);
      EndingPrompt(next, b.escapes, poison);
      PromptJoins([Began(next, poison)], b.trace);
      PromptJoins([Began(next, poison)] + b.trace, Ending(next, b.escapes, poison));
      PromptJoins(Caught(next, b, poison), Meant(rest, b.next).trace);
  }

  /** Numbers name guarded calls: each is that of one call, which returns once. */
  lemma {:induction false} GuardsReturnOnce(code: Code, next: nat)
    ensures var m := Meant(code, next);
            ReturnsOnce(m.trace) && Numbered(m.trace, next, m.next)
  {
    match code
    case Done =>
    case Then(Work(n), rest) =>
      GuardsReturnOnce(rest, next);
      OnceJoins([Worked(n)], Meant(rest, next).trace, next, next, next, Meant(rest, next).next);
    case Then(Panics(_, _, _), _) =>
    case Then(Guarded(body, poison), rest) =>
      var b := Meant(body, next + 1);
      var m := Meant(rest, b.next);
      GuardsReturnOnce(body, next + 1);
      GuardsReturnOnce(rest, b.next);
      CaughtOnce(next, b, poison);
      OnceJoins(Caught(next, b, poison), m.trace, next, b.next, b.next, m.next);
      NumberedJoins(Caught(next, b, poison), m.trace, next, m.next);
  }

  lemma CaughtOnce(guard: nat, b: Meaning, poison: Option<nat>)
    requires ReturnsOnce(b.trace) && Numbered(b.trace, guard + 1, b.next) && guard < b.next
    ensures ReturnsOnce(Caught(guard, b, poison)) && Numbered(Caught(guard, b, poison), guard, b.next)
  {
    EndingPrompt(guard, b.escapes, poison);
    var inner := b.trace + Ending(guard, b.escapes, poison);
    OnceJoins(b.trace, Ending(guard, b.escapes, poison), guard + 1, b.next, guard, guard + 1);
    NumberedJoins(b.trace, Ending(guard, b.escapes, poison), guard, b.next);
    assert Caught(guard, b, poison) == [Began(guard, poison)] + inner;
    BeginsFirst(guard, poison, b.trace, Ending(guard, b.escapes, poison), b.next);
  }

  lemma BeginsFirst(guard: nat, poison: Option<nat>, a: seq<Trace>, b: seq<Trace>, upto: nat)
    requires ReturnsOnce(a + b) && Numbered(a, guard + 1, upto)
    requires forall i :: 0 <= i < |b| ==> !b[i].Began?
    ensures ReturnsOnce([Began(guard, poison)] + (a + b))
  {
    var r := [Began(guard, poison)] + (a + b);
    forall j | 0 < j < |r| && r[j].Began? ensures r[j].guard != guard {
      assert r[j] == (a + b)[j - 1];
    }
  }

  // -------------------------------------------------------------------------
  // A stack of guards, and what a panic does to it
  // -------------------------------------------------------------------------

  datatype Open = Open(guard: nat, poison: Option<nat>)

  /** What has to come next once a panic has reached a guard. */
  function Aftermath(g: Open, info: PanicInfo): seq<Trace> {
    (if g.poison.Some? then [Poisoned(g.guard, g.poison.value)] else [])
    + [Returned(g.guard, true, Some(info))]
  }

  /** Reads a trace with the guards open at its start, innermost first, and gives those open at its
      end; or rejects it. A guarded call returns when it is the innermost, and a panic ends the
      innermost one, at once. */
  function Drive(open: seq<Open>, trace: seq<Trace>): Option<seq<Open>>
    decreases |trace|
  {
    if trace == [] then Some(open)
    else match trace[0]
      case Worked(_) => Drive(open, trace[1..])
      case Began(g, p) => Drive([Open(g, p)] + open, trace[1..])
      case Returned(g, false, None) =>
        if open != [] && open[0].guard == g then Drive(open[1..], trace[1..]) else None
      case Raised(info) =>
        if open != [] && Aftermath(open[0], info) <= trace[1..]
        then Drive(open[1..], trace[1 + |Aftermath(open[0], info)|..]) else None
      case _ => None
  }

  lemma {:induction false} DriveJoins(open: seq<Open>, a: seq<Trace>, b: seq<Trace>)
    requires Drive(open, a).Some?
    ensures Drive(open, a + b) == Drive(Drive(open, a).value, b)
    decreases |a|
  {
    if a == [] {
      assert a + b == b;
    } else {
      assert (a + b)[1..] == a[1..] + b;
      match a[0]
      case Worked(_) => DriveJoins(open, a[1..], b);
      case Began(g, p) => DriveJoins([Open(g, p)] + open, a[1..], b);
      case Returned(g, _, _) => DriveJoins(open[1..], a[1..], b);
      case Raised(info) =>
        var n := 1 + |Aftermath(open[0], info)|;
        assert (a + b)[n..] == a[n..] + b;
        DriveJoins(open[1..], a[n..], b);
    }
  }

  /** Run as the stack of guards says, leaving the stack as it was; all but a panic that no guard of
      its own contains, which is then the last thing done. */
  predicate Stacked(m: Meaning, open: seq<Open>) {
    match m.escapes
    case None => Drive(open, m.trace) == Some(open)
    case Some(info) =>
      && m.trace != [] && m.trace[|m.trace| - 1] == Raised(info)
      && Drive(open, m.trace[..|m.trace| - 1]) == Some(open)
  }

  lemma {:induction false} Driven(code: Code, next: nat, open: seq<Open>)
    ensures Stacked(Meant(code, next), open)
  {
    match code
    case Done =>
    case Then(Panics(_, _, _), _) =>
    case Then(Work(n), rest) =>
      var m := Meant(rest, next);
      Driven(rest, next, open);
      ThenDriven(open, [Worked(n)], m);
      assert Meant(code, next) == m.(trace := [Worked(n)] + m.trace);
    case Then(Guarded(body, poison), rest) =>
      var b := Meant(body, next + 1);
      var m := Meant(rest, b.next);
      Driven(body, next + 1, [Open(next, poison)] + open);
      Driven(rest, b.next, open);
      CaughtDriven(next, b, poison, open);
      ThenDriven(open, Caught(next, b, poison), m);
      assert Meant(code, next) == m.(trace := Caught(next, b, poison) + m.trace);
  }

  lemma ThenDriven(open: seq<Open>, first: seq<Trace>, m: Meaning)
    requires Drive(open, first) == Some(open) && Stacked(m, open)
    ensures Stacked(m.(trace := first + m.trace), open)
  {
    DriveJoins(open, first, m.trace);
    if m.trace != [] {
      assert (first + m.trace)[..|first + m.trace| - 1] == first + m.trace[..|m.trace| - 1];
      DriveJoins(open, first, m.trace[..|m.trace| - 1]);
    }
  }

  lemma CaughtDriven(guard: nat, b: Meaning, poison: Option<nat>, open: seq<Open>)
    requires Stacked(b, [Open(guard, poison)] + open)
    ensures Drive(open, Caught(guard, b, poison)) == Some(open)
  {
    var within := [Open(guard, poison)] + open;
    var ending := Ending(guard, b.escapes, poison);
    assert within[1..] == open;
    assert Caught(guard, b, poison)[1..] == b.trace + ending;
    match b.escapes
    case None =>
      DriveJoins(within, b.trace, ending);
      assert ending[1..] == [];
    case Some(info) =>
      var before := b.trace[..|b.trace| - 1];
      assert b.trace + ending == before + ([Raised(info)] + ending);
      DriveJoins(within, before, [Raised(info)] + ending);
      PanicDriven(within, info);
  }

  lemma PanicDriven(open: seq<Open>, info: PanicInfo)
    requires open != []
    ensures Drive(open, [Raised(info)] + Aftermath(open[0], info)) == Some(open[1..])
  {
    var r := [Raised(info)] + Aftermath(open[0], info);
    assert r[1..] == Aftermath(open[0], info) && r[|r|..] == [];
  }

  /** Event `j` is the return of a panicked call whose callback is `poison`: just before it the
      callback ran, if there is one, and just before that the panic was raised. */
  predicate EndsPanic(trace: seq<Trace>, j: nat, poison: Option<nat>)
    requires j < |trace| && trace[j].Returned?
  {
    var k := if poison.Some? then j - 2 else j - 1;
    && 0 <= k && trace[k].Raised? && trace[j].info == Some(trace[k].panic)
    && (poison.Some? ==> trace[j - 1] == Poisoned(trace[j].guard, poison.value))
  }

  /** Known to have begun with this callback: earlier in the trace, or before it. */
  predicate BeganWith(open: seq<Open>, trace: seq<Trace>, j: nat, g: Open)
    requires j <= |trace|
  {
    g in open || Began(g.guard, g.poison) in trace[..j]
  }

  /** How far one step of Drive goes, and the guards open after it. */
  lemma DriveStep(open: seq<Open>, trace: seq<Trace>) returns (now: seq<Open>, n: nat)
    requires Drive(open, trace).Some? && trace != []
    ensures 0 < n <= |trace| && Drive(now, trace[n..]).Some?
    ensures forall g :: g in now ==> g in open || Began(g.guard, g.poison) in trace[..n]
    ensures if trace[0].Raised? then open != [] && trace[1..n] == Aftermath(open[0], trace[0].panic)
            else n == 1 && !(trace[0].Returned? && trace[0].panicked)
    ensures forall k :: 0 < k < n ==> !trace[k].Raised?
  {
    match trace[0]
    case Worked(_) => now, n := open, 1;
    case Began(g, p) =>
      now, n := [Open(g, p)] + open, 1;
      assert trace[..1][0] == Began(g, p);
    case Returned(_, _, _) => now, n := open[1..], 1;
    case Raised(info) =>
      now, n := open[1..], 1 + |Aftermath(open[0], info)|;
      assert trace[1..n] == Aftermath(open[0], info);
      forall k | 0 < k < n ensures !trace[k].Raised? { assert trace[k] == trace[1..n][k - 1]; }
  }

  lemma {:induction false} PanicsEnd(open: seq<Open>, trace: seq<Trace>, j: nat)
    requires Drive(open, trace).Some? && j < |trace| && trace[j].Returned? && trace[j].panicked
    ensures exists p :: BeganWith(open, trace, j, Open(trace[j].guard, p)) && EndsPanic(trace, j, p)
    decreases |trace|
  {
    var now, n := DriveStep(open, trace);
    if j < n {
      EndsHere(open, trace, n, j);
    } else {
      PanicsEnd(now, trace[n..], j - n);
      EndsLater(open, now, trace, n, j);
    }
  }

  lemma EndsHere(open: seq<Open>, trace: seq<Trace>, n: nat, j: nat)
    requires open != [] && 0 < n <= |trace| && trace[0].Raised?
    requires trace[1..n] == Aftermath(open[0], trace[0].panic)
    requires 0 < j < n && trace[j].Returned?
    ensures BeganWith(open, trace, j, Open(trace[j].guard, open[0].poison))
    ensures EndsPanic(trace, j, open[0].poison)
  {
    assert trace[1] == trace[1..n][0] && trace[n - 1] == trace[1..n][n - 2];
    assert j == n - 1;
    assert open[0] in open;
  }

  lemma EndsLater(open: seq<Open>, now: seq<Open>, trace: seq<Trace>, n: nat, j: nat)
    requires n <= j < |trace| && trace[j].Returned?
    requires forall g :: g in now ==> g in open || Began(g.guard, g.poison) in trace[..n]
    requires exists p :: BeganWith(now, trace[n..], j - n, Open(trace[j].guard, p))
                         && EndsPanic(trace[n..], j - n, p)
    ensures exists p :: BeganWith(open, trace, j, Open(trace[j].guard, p)) && EndsPanic(trace, j, p)
  {
    var p :| BeganWith(now, trace[n..], j - n, Open(trace[j].guard, p))
             && EndsPanic(trace[n..], j - n, p);
    assert trace[..j] == trace[..n] + trace[n..][..j - n];
    assert EndsPanic(trace, j, p) && BeganWith(open, trace, j, Open(trace[j].guard, p));
  }

  /** And every panic is raised in front of the return of the innermost guard. */
  lemma {:induction false} RaisedEnds(open: seq<Open>, trace: seq<Trace>, i: nat)
    requires Drive(open, trace).Some? && i < |trace| && trace[i].Raised?
    ensures exists g: Open ::
              BeganWith(open, trace, i, g) && Aftermath(g, trace[i].panic) <= trace[i + 1..]
    decreases |trace|
  {
    var now, n := DriveStep(open, trace);
    if i == 0 {
      assert trace[1..n] <= trace[1..] && BeganWith(open, trace, 0, open[0]);
    } else {
      RaisedEnds(now, trace[n..], i - n);
      RaisedLater(open, now, trace, n, i);
    }
  }

  lemma RaisedLater(open: seq<Open>, now: seq<Open>, trace: seq<Trace>, n: nat, i: nat)
    requires n <= i < |trace| && trace[i].Raised?
    requires forall g :: g in now ==> g in open || Began(g.guard, g.poison) in trace[..n]
    requires exists g: Open :: BeganWith(now, trace[n..], i - n, g)
                         && Aftermath(g, trace[i].panic) <= trace[n..][i - n + 1..]
    ensures exists g: Open :: BeganWith(open, trace, i, g) && Aftermath(g, trace[i].panic) <= trace[i + 1..]
  {
    var g: Open :| BeganWith(now, trace[n..], i - n, g)
             && Aftermath(g, trace[i].panic) <= trace[n..][i - n + 1..];
    assert trace[..i] == trace[..n] + trace[n..][..i - n];
    assert trace[n..][i - n + 1..] == trace[i + 1..];
    assert BeganWith(open, trace, i, g);
  }

  /** Every panicked return comes right after the panic, with the callback the call began with run in
      between, or none if it began with none. Each call begins once, so that is its callback. */
  lemma PanicsRunTheirPoison(code: Code, next: nat, j: nat)
    requires var t := Meant(code, next).trace; j < |t| && t[j].Returned? && t[j].panicked
    ensures var t := Meant(code, next).trace;
            exists p :: Began(t[j].guard, p) in t[..j] && EndsPanic(t, j, p)
    ensures ReturnsOnce(Meant(code, next).trace)
  {
    var m := Meant(code, next);
    GuardsReturnOnce(code, next);
    Driven(code, next, []);
    if m.escapes.None? {
      PanicsEnd([], m.trace, j);
    } else {
      var t := m.trace[..|m.trace| - 1];
      PanicsEnd([], t, j);
      var p :| BeganWith([], t, j, Open(t[j].guard, p)) && EndsPanic(t, j, p);
      assert t[..j] == m.trace[..j];
      assert EndsPanic(m.trace, j, p);
    }
  }

  /** Every panic but one that escapes altogether is followed by the callback of a guarded call begun
      earlier, if that began with one, and then by that call's panicked return. */
  lemma PanicsAreCaught(code: Code, next: nat, i: nat)
    requires i < |Meant(code, next).trace| && Meant(code, next).trace[i].Raised?
    requires Meant(code, next).escapes.Some? ==> i < |Meant(code, next).trace| - 1
    ensures var t := Meant(code, next).trace;
            exists g: Open :: Began(g.guard, g.poison) in t[..i] && Aftermath(g, t[i].panic) <= t[i + 1..]
  {
    var m := Meant(code, next);
    Driven(code, next, []);
    if m.escapes.None? {
      RaisedEnds([], m.trace, i);
    } else {
      RaisedEnds([], m.trace[..|m.trace| - 1], i);
      StillCaught(m.trace[..|m.trace| - 1], m.trace, i);
    }
  }

  lemma StillCaught(t: seq<Trace>, u: seq<Trace>, i: nat)
    requires t <= u && i < |t| && t[i].Raised?
    requires exists g: Open :: BeganWith([], t, i, g) && Aftermath(g, t[i].panic) <= t[i + 1..]
    ensures exists g: Open :: Began(g.guard, g.poison) in u[..i] && Aftermath(g, u[i].panic) <= u[i + 1..]
  {
    var g: Open :| BeganWith([], t, i, g) && Aftermath(g, t[i].panic) <= t[i + 1..];
    assert t[..i] == u[..i] && t[i + 1..] <= u[i + 1..];
  }

  // -------------------------------------------------------------------------
  // What work gets done
  // -------------------------------------------------------------------------

  function Works(trace: seq<Trace>): seq<nat> {
    if trace == [] then []
    else (if trace[0].Worked? then [trace[0].n] else []) + Works(trace[1..])
  }

  lemma {:induction false} WorksJoins(a: seq<Trace>, b: seq<Trace>)
    ensures Works(a + b) == Works(a) + Works(b)
  {
    if a == [] {
      assert a + b == b;
    } else {
      assert (a + b)[1..] == a[1..] + b && (a + b)[0] == a[0];
      WorksJoins(a[1..], b);
      OneWorks(a[0]);
      assert Works(a) == Works([a[0]]) + Works(a[1..]);
    }
  }

  /** Work up to the first panic that nothing contains; a guarded call contains every panic of its
      body, and what follows it goes on. */
  function Reaches(code: Code): (seq<nat>, bool) {
    match code
    case Done => ([], true)
    case Then(Work(n), rest) => ([n] + Reaches(rest).0, Reaches(rest).1)
    case Then(Panics(_, _, _), _) => ([], false)
    case Then(Guarded(body, _), rest) => (Reaches(body).0 + Reaches(rest).0, Reaches(rest).1)
  }

  lemma {:induction false} DoesItsWork(code: Code, next: nat)
    ensures Works(Meant(code, next).trace) == Reaches(code).0
    ensures Meant(code, next).escapes.None? <==> Reaches(code).1
  {
    match code
    case Done =>
    case Then(Panics(_, _, _), _) =>
    case Then(Work(n), rest) =>
      DoesItsWork(rest, next);
      OneWorks(Worked(n));
      WorksJoins([Worked(n)], Meant(rest, next).trace);
    case Then(Guarded(body, poison), rest) =>
      var b := Meant(body, next + 1);
      DoesItsWork(body, next + 1);
      DoesItsWork(rest, b.next);
      CaughtWorks(next, b, poison);
      WorksJoins(Caught(next, b, poison), Meant(rest, b.next).trace);
  }

  lemma OneWorks(v: Trace)
    ensures Works([v]) == if v.Worked? then [v.n] else []
  {
    assert [v][1..] == [];
  }

  /** A guarded call does the work of its body and no other. */
  lemma CaughtWorks(guard: nat, b: Meaning, poison: Option<nat>)
    ensures Works(Caught(guard, b, poison)) == Works(b.trace)
  {
    var ran := if b.escapes.Some? && poison.Some? then [Poisoned(guard, poison.value)] else [];
    var returned := [Returned(guard, b.escapes.Some?, b.escapes)];
    OneWorks(Began(guard, poison));
    OneWorks(returned[0]);
    if ran != [] { OneWorks(ran[0]); }
    WorksJoins(ran, returned);
    WorksJoins([Began(guard, poison)] + b.trace, ran + returned);
    WorksJoins([Began(guard, poison)], b.trace);
  }

  // -------------------------------------------------------------------------
  // What does happen
  // -------------------------------------------------------------------------

  class Frame {
    const previous: Frame?
    const guard: nat

    constructor (previous: Frame?, guard: nat)
      ensures this.previous == previous && this.guard == guard
    {
      this.previous, this.guard := previous, guard;
    }
  }

  /** How control leaves code: by running to its end, by a jump to a frame, or by R's own error. */
  datatype Exit = Ended | Jumped(to: Frame) | RfError

  class Thread {
    var active: Frame?
    const message: array<char>
    const func: array<char>
    var line: nat
    var trace: seq<Trace>
    var begun: nat

    ghost predicate Valid()
      reads this
    {
      message != func && message.Length == MESSAGE_SIZE && func.Length == FUNCTION_SIZE
    }

    constructor ()
      ensures Valid() && active == null && trace == [] && begun == 0
      ensures fresh(message) && fresh(func)
    {
      active, line, trace, begun := null, 0, [], 0;
      message := new char[MESSAGE_SIZE];
      func := new char[FUNCTION_SIZE];
    }

    function LastPanic(): PanicInfo
      reads this, message, func
    {
      PanicInfo(Text(message[..]), Text(func[..]), line)
    }

    method Note(msg: CString, fn: CString, at: nat)
      requires Valid()
      modifies this`line, message, func
      ensures LastPanic() == FromMemory(msg, fn, at)
    {
      CopyText(message, MESSAGE_SIZE, Some(msg));
      CopyText(func, FUNCTION_SIZE, Some(fn));
      line := at;
    }

    /** mdbx_r_panic. */
    method Panic(msg: Option<CString>, fn: Option<CString>, at: nat) returns (exit: Exit)
      requires Valid()
      modifies this`line, this`trace, message, func
      ensures if active == null then exit == RfError else exit == Jumped(active)
      ensures trace == old(trace) + [Raised(Recorded(msg, fn, at))]
      ensures active != null ==> LastPanic() == Recorded(msg, fn, at)
    {
      trace := trace + [Raised(Recorded(msg, fn, at))];
      if active == null {
        return RfError;
      }
      Note(MemoryOr(msg, UNKNOWN_ASSERTION), MemoryOr(fn, UNKNOWN_FUNCTION), at);
      return Jumped(active);
    }

    method Run(code: Code) returns (exit: Exit)
      requires Valid()
      modifies this, message, func
      ensures Valid() && active == old(active)
      ensures trace == old(trace) + Meant(code, old(begun)).trace
      ensures begun == Meant(code, old(begun)).next
      ensures match Meant(code, old(begun)).escapes
              case None => exit == Ended
              case Some(info) =>
                if active == null then exit == RfError
                else exit == Jumped(active) && LastPanic() == info
      decreases code, 0
    {
      match code
      case Done => return Ended;
      case Then(Work(n), rest) =>
        trace := trace + [Worked(n)];
        exit := Run(rest);
      case Then(Panics(msg, fn, at), _) =>
        exit := Panic(msg, fn, at);
      case Then(Guarded(body, poison), rest) =>
        exit := RunGuarded(body, poison);
        if exit != Ended {
          return;
        }
        exit := Run(rest);
    }

    /** mdbx_r_run_guarded. Every call returns, with the guard that was active before it active
        again; a panic in its body has run its poison callback and no other by then. */
    method RunGuarded(body: Code, poison: Option<nat>) returns (exit: Exit)
      requires Valid()
      modifies this, message, func
      ensures Valid() && exit == Ended && active == old(active)
      ensures trace == old(trace) + Caught(old(begun), Meant(body, old(begun) + 1), poison)
      ensures begun == Meant(body, old(begun) + 1).next
      decreases body, 1
    {
      var frame := new Frame(active, begun);
      active, begun, trace := frame, begun + 1, trace + [Began(begun, poison)];
      ghost var m := Meant(body, begun);
      exit := Run(body);
      assert trace == old(trace) + ([Began(frame.guard, poison)] + m.trace);
      if exit == Ended {
        active := frame.previous;
        trace := trace + [Returned(frame.guard, false, None)];
        return;
      }
      if exit != Jumped(frame) {
        return;
      }
      Catch(frame, poison);
      exit := Ended;
    }

    /** Where a jump lands. */
    method Catch(frame: Frame, poison: Option<nat>)
      requires Valid()
      modifies this`active, this`trace
      ensures active == frame.previous
      ensures trace == old(trace) + Ending(frame.guard, Some(LastPanic()), poison)
    {
      active := frame.previous;
      if poison.Some? {
        trace := trace + [Poisoned(frame.guard, poison.value)];
      }
      trace := trace + [Returned(frame.guard, true, Some(LastPanic()))];
    }
  }
}
