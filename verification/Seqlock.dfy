/**
 The shared-memory seqlock: one writer, any number of readers, interleaved at single loads, stores
 and byte copies under sequentially consistent memory.

 The writer bumps the counter, copies its bytes in any order, and bumps it again. A reader loads the
 counter, copies every byte in any order, and loads the counter again. A reader without a budget
 retries for ever; one with a budget gives up when its attempts are used up. The counter is a 64-bit
 word and wraps.

 `bumps`, `versions` and the fields `at`, `from` and `lag` of a reader only record history. The steps that
 mention them (`Open` in `versions != []`, `Check` in `bumps >= from`) are never blocked by them: both hold
 in every reachable state.
 */
module Seqlock {
  import opened Words

  type Byte = x: int | 0 <= x < 256

  type Patch = map<nat, Byte>

  datatype Writer =
    | Idle
    | LoadedFirst(patch: Patch, value: nat)
    | Copying(patch: Patch, todo: set<nat>)
    | LoadedSecond(value: nat)

  /* How often a reader may still try. */
  datatype Budget = Endless | Attempts(left: nat)

  datatype Reader =
    | Ready(budget: Budget)
    | Reading(budget: Budget, seq1: nat, got: Patch, at: nat, from: nat)
    | Returned(result: seq<Byte>, at: nat, lag: nat)
    | GaveUp

  datatype State = State(counter: nat, data: seq<Byte>, writer: Writer, readers: seq<Reader>,
                         bumps: nat, versions: seq<seq<Byte>>)

  datatype Step =
    | BeginWrite(patch: Patch)
    | FirstStore
    | CopyIn(pos: nat)
    | SecondLoad
    | SecondStore
    | Open(reader: nat)
    | CopyOut(reader: nat, pos: nat)
    | Check(reader: nat)
    | CallRead(reader: nat, budget: Budget)

  function Last<T>(s: seq<T>): T
    requires s != []
  {
    s[|s| - 1]
  }

  function Patched(data: seq<Byte>, patch: Patch): (r: seq<Byte>)
    ensures |r| == |data|
  {
    seq(|data|, i requires 0 <= i < |data| => if i in patch then patch[i] else data[i])
  }

  /** What `write_snapshot` stores: the payload cut to the data area, over its first bytes. */
  function PrefixPatch(payload: seq<Byte>, size: nat): (patch: Patch)
    ensures forall i :: i in patch <==> 0 <= i < |payload| && i < size
    ensures forall i :: i in patch ==> patch[i] == payload[i]
  {
    map i | 0 <= i < |payload| && i < size :: payload[i]
  }

  lemma {:induction false} PrefixPatchIsSliceAssignment(data: seq<Byte>, payload: seq<Byte>)
    ensures var n := if |payload| < |data| then |payload| else |data|;
            Patched(data, PrefixPatch(payload, |data|)) == payload[..n] + data[n..]
  {
  }

  function Spent(budget: Budget): Budget {
    if budget.Attempts? && budget.left > 0 then Attempts(budget.left - 1) else budget
  }

  /* The top of the retry loop, or giving up. */
  function Retry(budget: Budget): Reader {
    if budget == Attempts(0) then GaveUp else Ready(budget)
  }

  /* Where a read stands after that many of its attempts have failed. */
  function AfterFailures(budget: Budget, failures: nat): Reader
    decreases failures
  {
    if failures == 0 then Retry(budget)
    else
      match AfterFailures(budget, failures - 1)
      case Ready(left) => Retry(Spent(left))
      case other => other
  }

  /** A read with a budget makes exactly that many attempts; one without never gives up. */
  lemma {:induction false} BudgetIsAttempts(n: nat, failures: nat)
    ensures AfterFailures(Attempts(n), failures) == if failures < n then Ready(Attempts(n - failures)) else GaveUp
    ensures AfterFailures(Endless, failures) == Ready(Endless)
    decreases failures
  {
    if failures > 0 {
      BudgetIsAttempts(n, failures - 1);
    }
  }

  ghost predicate Init(s: State) {
    && s.counter == 0 && s.bumps == 0 && s.writer == Idle && s.versions == [s.data]
    && forall r :: 0 <= r < |s.readers| ==> s.readers[r].GaveUp?
  }

  ghost predicate WriterStep(s: State, t: State, step: Step) {
    match step
    case BeginWrite(patch) =>
      && s.writer == Idle && (forall i :: i in patch ==> i < |s.data|)
      && t == s.(writer := LoadedFirst(patch, s.counter))
    case FirstStore =>
      && s.writer.LoadedFirst?
      && t == s.(counter := (s.writer.value + 1) % TWO64, bumps := s.bumps + 1,
                 writer := Copying(s.writer.patch, s.writer.patch.Keys))
    case CopyIn(pos) =>
      && s.writer.Copying? && pos in s.writer.todo && pos in s.writer.patch && pos < |s.data|
      && t == s.(data := s.data[pos := s.writer.patch[pos]], writer := s.writer.(todo := s.writer.todo - {pos}))
    case SecondLoad =>
      && s.writer.Copying? && s.writer.todo == {}
      && t == s.(writer := LoadedSecond(s.counter))
    case SecondStore =>
      && s.writer.LoadedSecond?
      && t == s.(counter := (s.writer.value + 1) % TWO64, bumps := s.bumps + 1, writer := Idle,
                 versions := s.versions + [s.data])
    case _ => false
  }

  ghost predicate ReaderStep(s: State, t: State, step: Step) {
    match step
    case CallRead(r, budget) =>
      && r < |s.readers| && (s.readers[r].GaveUp? || s.readers[r].Returned?)
      && t == s.(readers := s.readers[r := Retry(budget)])
    case Open(r) =>
      && r < |s.readers| && s.readers[r].Ready? && s.versions != []
      && t == s.(readers := s.readers[r :=
                 if s.counter % 2 == 1 then Retry(Spent(s.readers[r].budget))
                 else Reading(Spent(s.readers[r].budget), s.counter, map[], |s.versions| - 1, s.bumps)])
    case CopyOut(r, pos) =>
      && r < |s.readers| && s.readers[r].Reading? && pos < |s.data| && pos !in s.readers[r].got
      && t == s.(readers := s.readers[r := s.readers[r].(got := s.readers[r].got[pos := s.data[pos]])])
    case Check(r) =>
      && r < |s.readers| && s.readers[r].Reading? && s.bumps >= s.readers[r].from
      && (forall i :: 0 <= i < |s.data| ==> i in s.readers[r].got)
      && t == s.(readers := s.readers[r :=
                 if s.counter == s.readers[r].seq1
                 then Returned(Patched(s.data, s.readers[r].got), s.readers[r].at, s.bumps - s.readers[r].from)
                 else Retry(s.readers[r].budget)])
    case _ => false
  }

  ghost predicate Next(s: State, t: State, step: Step) {
    WriterStep(s, t, step) || ReaderStep(s, t, step)
  }

  /* ---- the inductive invariant ---- */

  ghost predicate WriterInv(s: State) {
    && s.versions != []
    && (forall v :: 0 <= v < |s.versions| ==> |s.versions[v]| == |s.data|)
    && s.counter == s.bumps % TWO64
    && match s.writer
       case Idle => s.bumps == 2 * (|s.versions| - 1) && s.data == Last(s.versions)
       case LoadedFirst(patch, value) =>
         && s.bumps == 2 * (|s.versions| - 1) && s.data == Last(s.versions) && value == s.counter
         && forall i :: i in patch ==> i < |s.data|
       case Copying(patch, todo) =>
         && s.bumps == 2 * (|s.versions| - 1) + 1
         && (forall i :: i in patch ==> i < |s.data|)
         && todo <= patch.Keys
         && forall i :: 0 <= i < |s.data| ==>
              s.data[i] == if i in patch && i !in todo then patch[i] else Last(s.versions)[i]
       case LoadedSecond(value) => s.bumps == 2 * (|s.versions| - 1) + 1 && value == s.counter
  }

  /* While the counter has not moved since a reader opened, its bytes are those of the version it opened on. */
  ghost predicate ReaderInv(s: State, r: Reader) {
    match r
    case Reading(_, seq1, got, at, from) =>
      && at < |s.versions| && from == 2 * at && from <= s.bumps && seq1 == from % TWO64
      && (forall i :: i in got ==> i < |s.data|)
      && (s.bumps == from ==> at == |s.versions| - 1)
      && (s.bumps == from ==> forall i :: i in got ==> i < |s.versions[at]| && got[i] == s.versions[at][i])
    case Returned(result, at, lag) =>
      && at < |s.versions| && lag % TWO64 == 0
      && (lag < TWO64 ==> result == s.versions[at])
    case _ => true
  }

  ghost predicate Inv(s: State) {
    WriterInv(s) && forall r :: 0 <= r < |s.readers| ==> ReaderInv(s, s.readers[r])
  }

  lemma {:induction false} InitInv(s: State)
    requires Init(s)
    ensures Inv(s)
  {
  }

  lemma {:induction false} WriterStepKeepsWriterInv(s: State, t: State, step: Step)
    requires WriterInv(s) && WriterStep(s, t, step)
    ensures WriterInv(t)
  {
  }

  /* A writer step only ever adds a version, and the data moves only while the count of bumps is odd. */
  lemma {:induction false} WriterStepKeepsReaderInv(s: State, t: State, step: Step, r: Reader)
    requires WriterInv(s) && WriterStep(s, t, step) && ReaderInv(s, r)
    ensures ReaderInv(t, r)
  {
    assert s.versions <= t.versions;
  }

  lemma {:induction false} OpenKeepsReaderInv(s: State, budget: Budget)
    requires Inv(s) && s.counter % 2 != 1
    ensures ReaderInv(s, Reading(budget, s.counter, map[], |s.versions| - 1, s.bumps))
  {
    EvenMeansQuiet(s);
  }

  lemma {:induction false} CopyKeepsReaderInv(s: State, r: Reader, pos: nat)
    requires WriterInv(s) && ReaderInv(s, r) && r.Reading? && pos < |s.data|
    ensures ReaderInv(s, r.(got := r.got[pos := s.data[pos]]))
  {
    if s.bumps == r.from {
      assert s.data == Last(s.versions);
    }
  }

  lemma {:induction false} CheckKeepsReaderInv(s: State, r: Reader)
    requires WriterInv(s) && ReaderInv(s, r) && r.Reading? && s.counter == r.seq1
    requires forall i :: 0 <= i < |s.data| ==> i in r.got
    ensures ReaderInv(s, Returned(Patched(s.data, r.got), r.at, s.bumps - r.from))
  {
    SameWord(s.bumps, r.from);
    if s.bumps - r.from < TWO64 {
      assert Patched(s.data, r.got) == s.versions[r.at];
    }
  }

  lemma {:induction false} ReaderStepKeepsInv(s: State, t: State, step: Step)
    requires Inv(s) && ReaderStep(s, t, step)
    ensures Inv(t)
  {
    match step
    case CallRead(i, _) => ReaderReplaced(s, t, i, t.readers[i]);
    case Open(i) =>
      if s.counter % 2 != 1 {
        OpenKeepsReaderInv(s, Spent(s.readers[i].budget));
      }
      ReaderReplaced(s, t, i, t.readers[i]);
    case CopyOut(i, pos) =>
      CopyKeepsReaderInv(s, s.readers[i], pos);
      ReaderReplaced(s, t, i, t.readers[i]);
    case Check(i) =>
      if s.counter == s.readers[i].seq1 {
        CheckKeepsReaderInv(s, s.readers[i]);
      }
      ReaderReplaced(s, t, i, t.readers[i]);
  }

  lemma {:induction false} ReaderReplaced(s: State, t: State, i: nat, r: Reader)
    requires Inv(s) && i < |s.readers| && t == s.(readers := s.readers[i := r]) && ReaderInv(s, r)
    ensures Inv(t)
  {
  }

  lemma {:induction false} EvenMeansQuiet(s: State)
    requires WriterInv(s) && s.counter % 2 == 0
    ensures s.bumps == 2 * (|s.versions| - 1) && s.data == Last(s.versions)
  {
    assert s.bumps % 2 == 0;
  }

  lemma {:induction false} SameWord(a: nat, b: nat)
    requires a >= b && a % TWO64 == b % TWO64
    ensures (a - b) % TWO64 == 0
    ensures a - b < TWO64 ==> a == b
  {
  }

  lemma {:induction false} NextKeepsInv(s: State, t: State, step: Step)
    requires Inv(s) && Next(s, t, step)
    ensures Inv(t)
  {
    if WriterStep(s, t, step) {
      WriterStepKeepsWriterInv(s, t, step);
      forall r | 0 <= r < |t.readers|
        ensures ReaderInv(t, t.readers[r])
      {
        WriterStepKeepsReaderInv(s, t, step, s.readers[r]);
      }
    } else {
      ReaderStepKeepsInv(s, t, step);
    }
  }

  /* ---- runs ---- */

  ghost predicate Steps(s: State, t: State) {
    exists step :: Next(s, t, step)
  }

  ghost predicate Run(states: seq<State>) {
    && states != []
    && forall i :: 0 <= i < |states| - 1 ==> Steps(states[i], states[i + 1])
  }

  lemma {:induction false} RunKeepsInv(states: seq<State>)
    requires Run(states) && Inv(states[0])
    ensures Inv(Last(states))
    decreases |states|
  {
    if |states| > 1 {
      assert Steps(states[0], states[1]);
      var step :| Next(states[0], states[1], step);
      NextKeepsInv(states[0], states[1], step);
      RunKeepsInv(states[1..]);
    }
  }

  /** The history fields never block a step: what the two guards ask of them holds in every reachable state. */
  lemma {:induction false} HistoryNeverBlocks(states: seq<State>)
    requires Run(states) && Init(states[0])
    ensures Last(states).versions != []
    ensures forall r :: 0 <= r < |Last(states).readers| && Last(states).readers[r].Reading? ==>
              Last(states).bumps >= Last(states).readers[r].from
  {
    InitInv(states[0]);
    RunKeepsInv(states);
    var s := Last(states);
    assert forall r :: 0 <= r < |s.readers| ==> ReaderInv(s, s.readers[r]);
  }

  /**
   In every run, a read that returned while fewer than 2^64 counter bumps (2^63 writes) went by since
   it opened returns exactly the version that was current when it opened, whether or not it has a budget.
   */
  lemma {:induction false} ReadsAreAtomic(states: seq<State>, r: nat)
    requires Run(states) && Init(states[0])
    requires r < |Last(states).readers| && Last(states).readers[r].Returned?
    requires Last(states).readers[r].lag < TWO64
    ensures var s := Last(states);
            s.readers[r].at < |s.versions| && s.readers[r].result == s.versions[s.readers[r].at]
  {
    InitInv(states[0]);
    RunKeepsInv(states);
  }

  /* ---- the bound is needed: after exactly 2^63 writes the wrapped counter hides a torn read ---- */

  const ONES: Patch := map[0 := 1, 1 := 1]

  /* The first half of a write of [1, 1]: the count is bumped and both bytes are copied. */
  lemma {:induction false} HalfWrite(s: State) returns (run: seq<State>)
    requires Inv(s) && s.writer == Idle && |s.data| == 2
    ensures Run(run) && run[0] == s
    ensures Last(run) == s.(counter := (s.counter + 1) % TWO64, data := [1, 1], bumps := s.bumps + 1,
                            writer := Copying(ONES, {}))
    ensures Inv(Last(run))
  {
    var s1 := s.(writer := LoadedFirst(ONES, s.counter));
    var s2 := s1.(counter := (s1.counter + 1) % TWO64, bumps := s1.bumps + 1, writer := Copying(ONES, ONES.Keys));
    var s3 := s2.(data := s2.data[0 := 1], writer := Copying(ONES, ONES.Keys - {0}));
    var s4 := s3.(data := s3.data[1 := 1], writer := Copying(ONES, ONES.Keys - {0} - {1}));
    assert s4.data == [1, 1] && ONES.Keys - {0} - {1} == {};
    run := Extended([s], s1, BeginWrite(ONES));
    run := Extended(run, s2, FirstStore);
    run := Extended(run, s3, CopyIn(0));
    run := Extended(run, s4, CopyIn(1));
  }

  /* One whole write of [1, 1], from an idle state. */
  lemma {:induction false} OneWrite(s: State) returns (run: seq<State>)
    requires Inv(s) && s.writer == Idle && |s.data| == 2
    ensures Run(run) && run[0] == s
    ensures Last(run) == s.(counter := (s.counter + 2) % TWO64, data := [1, 1], bumps := s.bumps + 2,
                            versions := s.versions + [[1, 1]])
    ensures Inv(Last(run))
  {
    run := HalfWrite(s);
    var s4 := Last(run);
    var s5 := s4.(writer := LoadedSecond(s4.counter));
    var s6 := s5.(counter := (s5.counter + 1) % TWO64, bumps := s5.bumps + 1, writer := Idle,
                  versions := s5.versions + [s5.data]);
    run := Extended(run, s5, SecondLoad);
    run := Extended(run, s6, SecondStore);
  }

  lemma {:induction false} Extended(run: seq<State>, t: State, step: Step) returns (longer: seq<State>)
    requires Run(run) && Inv(Last(run)) && Next(Last(run), t, step)
    ensures Run(longer) && longer[0] == run[0] && Last(longer) == t && Inv(t)
  {
    longer := run + [t];
    assert Steps(Last(run), t);
    assert forall i :: 0 <= i < |run| ==> longer[i] == run[i];
    NextKeepsInv(Last(run), t, step);
  }

  lemma {:induction false} JoinRuns(a: seq<State>, b: seq<State>)
    requires Run(a) && Run(b) && Last(a) == b[0]
    ensures Run(a + b[1..]) && (a + b[1..])[0] == a[0] && Last(a + b[1..]) == Last(b)
  {
    var c := a + b[1..];
    forall i | 0 <= i < |c| - 1
      ensures Steps(c[i], c[i + 1])
    {
      if i >= |a| - 1 {
        assert c[i] == b[i - |a| + 1] && c[i + 1] == b[i - |a| + 2];
        assert Steps(b[i - |a| + 1], b[i - |a| + 2]);
      } else {
        assert Steps(a[i], a[i + 1]);
      }
    }
  }

  lemma {:induction false} ManyWrites(s: State, n: nat) returns (run: seq<State>)
    requires Inv(s) && s.writer == Idle && |s.data| == 2 && n > 0
    ensures Run(run) && run[0] == s
    ensures var t := Last(run);
            && t.writer == Idle && t.data == [1, 1] && t.readers == s.readers
            && t.bumps == s.bumps + 2 * n
            && forall v :: |s.versions| <= v < |t.versions| ==> t.versions[v] == t.data
    ensures Inv(Last(run)) && s.versions <= Last(run).versions
    decreases n
  {
    run := OneWrite(s);
    if n > 1 {
      var more := ManyWrites(Last(run), n - 1);
      JoinRuns(run, more);
      run := run + more[1..];
    }
  }

  const HALF_READ := [Reading(Endless, 0, map[0 := 0], 0, 0)]

  /* A reader opens on version 0 and copies byte 0. */
  lemma {:induction false} ReaderStarts() returns (run: seq<State>)
    ensures Run(run) && Init(run[0]) && Inv(Last(run))
    ensures Last(run) == State(0, [0, 0], Idle, HALF_READ, 0, [[0, 0]])
  {
    var s0 := State(0, [0, 0], Idle, [GaveUp], 0, [[0, 0]]);
    var s1 := s0.(readers := [Ready(Endless)]);
    var s2 := s0.(readers := [Reading(Endless, 0, map[], 0, 0)]);
    var s3 := s0.(readers := HALF_READ);
    run := [s0, s1, s2, s3];
    assert Next(s0, s1, CallRead(0, Endless));
    assert Next(s1, s2, Open(0));
    assert Next(s2, s3, CopyOut(0, 0));
    InitInv(s0);
    RunKeepsInv(run);
  }

  /* It copies byte 1 and finds the counter where it was. */
  lemma {:induction false} ReaderEnds(s: State) returns (run: seq<State>)
    requires s.readers == HALF_READ && s.data == [1, 1] && s.counter == 0 && s.bumps == TWO64
    ensures Run(run) && run[0] == s
    ensures Last(run) == s.(readers := [Returned([0, 1], 0, TWO64)])
  {
    var got: Patch := map[0 := 0][1 := 1];
    var t := s.(readers := [Reading(Endless, 0, got, 0, 0)]);
    var u := s.(readers := [Returned([0, 1], 0, TWO64)]);
    assert Patched(s.data, got) == [0, 1];
    assert Next(s, t, CopyOut(0, 1));
    assert Next(t, u, Check(0));
    run := [s, t, u];
  }

  /**
   The promise of never returning a torn read is false without the bound: there is a run in which
   read_snapshot returns bytes that were never the data after any write.
   */
  lemma {:induction false} WrappedCounterHidesTornRead() returns (run: seq<State>)
    ensures Run(run) && Init(run[0])
    ensures var s := Last(run);
            && |s.readers| == 1 && s.readers[0].Returned? && s.readers[0].lag == TWO64
            && s.readers[0].result !in s.versions
  {
    run := ReaderStarts();
    var writes := ManyWrites(Last(run), TWO64 / 2);
    JoinRuns(run, writes);
    run := run + writes[1..];
    var finish := ReaderEnds(Last(run));
    JoinRuns(run, finish);
    run := run + finish[1..];
    var s := Last(run);
    assert s.readers[0].result == [0, 1];
    assert forall v :: 0 <= v < |s.versions| ==> s.versions[v] == if v == 0 then [0, 0] else [1, 1];
  }
}
