/**
 The single-producer single-consumer ring, step by step: each access to an index or to the count that the
 other thread may change is a step of its own, and a slot that is being written has no readable value in
 between. A thread's reads of its own index, which nobody else writes, belong to the step they serve. The
 producer and the consumer interleave freely.
 */
module LockFreeQueue {
  import opened Domain

  datatype Producer = Idle | Writing | Written | Published

  /** How far the consumer is with the slot it was given. `Released` is after updateReadIndex. */
  datatype Consumer =
    | Ready
    | Looked(slot: nat)
    | Sized(slot: nat)
    | Used(slot: nat)
    | Advanced(slot: nat)
    | Asserted(slot: nat)
    | Released(slot: nat)

  /** The ring, where each thread is, and a log: `written` holds the values published and `used` and
      `copied` what the consumer got out of the slots, None where it met a slot being written. */
  datatype Ring<T> = Ring(
    store: seq<Option<T>>, writeIndex: nat, readIndex: nat, count: nat,
    producer: Producer, consumer: Consumer, aborted: bool,
    written: seq<T>, used: seq<Option<T>>, copied: seq<Option<T>>)

  datatype Step<T> =
    | Begin | Store(value: T) | Publish | Count
    | Look | Size | Use | Advance | Assert | Decrement | Copy

  /** The slot of the i-th element. */
  function SlotAt(i: nat, n: nat): (s: nat)
    requires n > 0
    ensures s < n
  {
    i % n
  }

  /** `guarded` consumers test size() before they use a slot. */
  predicate Enabled<T>(q: Ring<T>, s: Step<T>, guarded: bool) {
    !q.aborted && |q.store| > 0 && q.writeIndex < |q.store| && q.readIndex < |q.store| &&
    match s
    case Begin => q.producer == Idle
    case Store(_) => q.producer == Writing
    case Publish => q.producer == Written
    case Count => q.producer == Published
    case Look => q.consumer == Ready
    case Size => q.consumer.Looked?
    case Use => q.consumer.Sized? && q.consumer.slot < |q.store|
    case Advance => q.consumer.Used?
    case Assert => q.consumer.Advanced?
    case Decrement => q.consumer.Asserted? && q.count > 0
    case Copy => q.consumer.Released? && q.consumer.slot < |q.store|
  }

  function Next<T>(q: Ring<T>, s: Step<T>, guarded: bool): Ring<T>
    requires Enabled(q, s, guarded)
  {
    match s
    case Begin => q.(producer := Writing, store := q.store[q.writeIndex := None])
    case Store(v) =>
      q.(producer := Written, store := q.store[q.writeIndex := Some(v)], written := q.written + [v])
    case Publish => q.(producer := Published, writeIndex := (q.writeIndex + 1) % |q.store|)
    case Count => q.(producer := Idle, count := q.count + 1)
    case Look => if q.readIndex == q.writeIndex then q else q.(consumer := Looked(q.readIndex))
    case Size => q.(consumer := if guarded && q.count == 0 then Ready else Sized(q.consumer.slot))
    case Use => q.(consumer := Used(q.consumer.slot), used := q.used + [q.store[q.consumer.slot]])
    case Advance => q.(consumer := Advanced(q.consumer.slot), readIndex := (q.readIndex + 1) % |q.store|)
    case Assert => if q.count == 0 then q.(aborted := true) else q.(consumer := Asserted(q.consumer.slot))
    case Decrement => q.(consumer := Released(q.consumer.slot), count := q.count - 1)
    case Copy => q.(consumer := Ready, copied := q.copied + [q.store[q.consumer.slot]])
  }

  /** An empty ring of `n` slots. */
  function Fresh<T>(n: nat): Ring<T> {
    Ring(seq(n, _ => None), 0, 0, 0, Idle, Ready, false, [], [], [])
  }

  // ----- What is pending

  /** Elements stored whose index has been published. */
  function Puts<T>(q: Ring<T>): int {
    |q.written| - (if q.producer == Written then 1 else 0)
  }

  predicate IsAdvanced(c: Consumer) {
    c.Advanced? || c.Asserted? || c.Released?
  }

  /** Elements whose slot has been given back. */
  function Takes<T>(q: Ring<T>): int {
    |q.used| - (if q.consumer.Used? then 1 else 0)
  }

  function Pending<T>(q: Ring<T>): int {
    Puts(q) - Takes(q)
  }

  /** The bound of the ring: no element is begun while N - 1 are pending. */
  predicate Bounded<T>(q: Ring<T>, s: Step<T>) {
    s.Begin? ==> Pending(q) + 1 < |q.store|
  }

  // ----- The invariant

  /** The first element whose slot the consumer may still look at. */
  function Low<T>(q: Ring<T>): int {
    if IsAdvanced(q.consumer) then Takes(q) - 1 else Takes(q)
  }

  predicate IndexesMatch<T>(q: Ring<T>) {
    && |q.store| > 0 && 0 <= Low(q) && Takes(q) <= Puts(q)
    && q.writeIndex == SlotAt(Puts(q), |q.store|) && q.readIndex == SlotAt(Takes(q), |q.store|)
    && Pending(q) < |q.store|
    && (q.producer == Writing || q.producer == Written ==> Pending(q) + 1 < |q.store|)
  }

  /** Every element the consumer may still look at is whole in its slot. */
  ghost predicate Stored<T>(q: Ring<T>) {
    && |q.store| > 0 && 0 <= Low(q)
    && (forall i: nat {:trigger q.written[i]} :: Low(q) <= i < |q.written| ==> q.store[SlotAt(i, |q.store|)] == Some(q.written[i]))
  }

  /** The consumer holds the slot it should. */
  predicate Held<T>(q: Ring<T>) {
    && |q.store| > 0 && 0 <= Low(q)
    && (q.consumer.Ready? || q.consumer.slot == SlotAt(Low(q), |q.store|))
    && (q.consumer.Looked? || q.consumer.Sized? || q.consumer.Used? ==> Takes(q) < Puts(q))
  }

  predicate CountMatches<T>(q: Ring<T>) {
    && (q.consumer.Asserted? ==> q.count > 0)
    && q.count + (if q.producer == Published then 1 else 0) ==
      Pending(q) + (if q.consumer.Advanced? || q.consumer.Asserted? then 1 else 0)
  }

  /** What was used are the values written, in order; what was copied late is the same once more. */
  ghost predicate Delivered<T>(q: Ring<T>) {
    && |q.used| <= |q.written|
    && (forall i :: 0 <= i < |q.used| ==> q.used[i] == Some(q.written[i]))
    && |q.copied| == Low(q)
    && (forall i :: 0 <= i < |q.copied| ==> q.copied[i] == q.used[i])
  }

  ghost predicate Sound<T>(q: Ring<T>) {
    IndexesMatch(q) && Stored(q) && Held(q) && CountMatches(q) && Delivered(q)
  }

  // ----- Slots

  lemma SlotAfter(i: nat, n: nat)
    requires n > 0
    ensures (SlotAt(i, n) + 1) % n == SlotAt(i + 1, n)
  {
    var q, r := i / n, i % n;
    assert i == q * n + r;
    if r + 1 < n {
      ModIs(r + 1, n, 0, r + 1);
      ModIs(i + 1, n, q, r + 1);
    } else {
      assert (q + 1) * n == q * n + n;
      ModIs(n, n, 1, 0);
      ModIs(i + 1, n, q + 1, 0);
    }
  }

  lemma Multiples(d: int, n: nat)
    ensures d >= 1 ==> d * n >= n
    ensures d <= -1 ==> d * n <= 0 - n
    ensures d == 0 ==> d * n == 0
  {
    if d >= 1 {
      assert (d - 1) * n >= 0;
    } else if d <= -1 {
      assert (d + 1) * n <= 0;
    }
  }

  lemma ModIs(x: nat, n: nat, q: nat, r: nat)
    requires x == q * n + r && r < n
    ensures x % n == r
  {
    var d := x / n - q;
    assert x == (x / n) * n + x % n;
    assert d * n == (x / n) * n - q * n;
    Multiples(d, n);
  }

  /** Elements less than a full turn apart have slots of their own. */
  lemma SlotsDiffer(i: nat, j: nat, n: nat)
    requires n > 0 && i < j < i + n
    ensures SlotAt(i, n) != SlotAt(j, n)
  {
    var d := j / n - i / n;
    assert i == (i / n) * n + i % n && j == (j / n) * n + j % n;
    assert d * n == (j / n) * n - (i / n) * n;
    Multiples(d, n);
  }

  lemma SlotsMeet(i: nat, n: nat)
    requires n > 0
    ensures SlotAt(i + n, n) == SlotAt(i, n)
  {
    ModIs(i + n, n, i / n + 1, i % n);
  }

  // ----- Every step

  /** The slot about to be written is none of those the consumer may still look at. */
  lemma WriteSlotIsClear<T>(q: Ring<T>)
    requires IndexesMatch(q) && Pending(q) + 1 < |q.store|
    ensures forall i: nat {:trigger q.written[i]} :: Low(q) <= i < Puts(q) ==> SlotAt(i, |q.store|) != q.writeIndex
  {
    hide SlotAt;
    forall i: nat | Low(q) <= i < Puts(q) ensures SlotAt(i, |q.store|) != q.writeIndex {
      SlotsDiffer(i, Puts(q), |q.store|);
    }
  }

  lemma ProducerKeepsSound<T>(q: Ring<T>, s: Step<T>, guarded: bool)
    requires Sound(q) && Enabled(q, s, guarded) && Bounded(q, s)
    requires s.Begin? || s.Store? || s.Publish? || s.Count?
    ensures Sound(Next(q, s, guarded))
  {
    hide SlotAt;
    if s.Publish? {
      SlotAfter(Puts(q), |q.store|);
    } else if s.Begin? || s.Store? {
      WriteSlotIsClear(q);
    }
  }

  lemma ConsumerKeepsSound<T>(q: Ring<T>, s: Step<T>, guarded: bool)
    requires Sound(q) && Enabled(q, s, guarded)
    requires !s.Begin? && !s.Store? && !s.Publish? && !s.Count?
    ensures Sound(Next(q, s, guarded))
  {
    hide SlotAt;
    if s.Advance? {
      SlotAfter(Takes(q), |q.store|);
    }
  }

  // ----- Every interleaving

  predicate Runs<T>(q: Ring<T>, ss: seq<Step<T>>, guarded: bool)
    decreases ss
  {
    ss != [] ==> Enabled(q, ss[0], guarded) && Bounded(q, ss[0]) && Runs(Next(q, ss[0], guarded), ss[1..], guarded)
  }

  function After<T>(q: Ring<T>, ss: seq<Step<T>>, guarded: bool): Ring<T>
    requires Runs(q, ss, guarded)
    decreases ss
  {
    if ss == [] then q else After(Next(q, ss[0], guarded), ss[1..], guarded)
  }

  /** A guarded consumer past its size() test has an element counted for it. */
  predicate Covered<T>(q: Ring<T>) {
    !q.aborted && (q.consumer.Sized? || q.consumer.Used? || q.consumer.Advanced? ==> q.count > 0)
  }

  lemma {:induction false} RunIsSound<T>(q: Ring<T>, ss: seq<Step<T>>, guarded: bool)
    requires Sound(q) && Runs(q, ss, guarded) && (guarded ==> Covered(q))
    ensures Sound(After(q, ss, guarded)) && (guarded ==> Covered(After(q, ss, guarded)))
    decreases ss
  {
    if ss != [] {
      var s := ss[0];
      CoverageIsKept(q, s, guarded);
      hide Sound, Enabled, Next, Covered;
      if s.Begin? || s.Store? || s.Publish? || s.Count? {
        ProducerKeepsSound(q, s, guarded);
      } else {
        ConsumerKeepsSound(q, s, guarded);
      }
      RunIsSound(Next(q, s, guarded), ss[1..], guarded);
    }
  }

  lemma CoverageIsKept<T>(q: Ring<T>, s: Step<T>, guarded: bool)
    requires Enabled(q, s, guarded) && (guarded ==> Covered(q))
    ensures guarded ==> Covered(Next(q, s, guarded))
  {
  }

  lemma FreshIsSound<T>(n: nat)
    requires n > 0
    ensures Sound(Fresh<T>(n)) && Covered(Fresh<T>(n))
  {
  }

  /** In every interleaving, whether the consumer tests size() or not: it uses whole values, which are
      those written in the order written, and a copy taken after the slot was given back is the value
      used. */
  lemma ReadsAreAPrefix<T>(n: nat, ss: seq<Step<T>>, guarded: bool)
    requires n > 0 && Runs(Fresh<T>(n), ss, guarded)
    ensures var q := After(Fresh<T>(n), ss, guarded);
      && |q.used| <= |q.written| && (forall i :: 0 <= i < |q.used| ==> q.used[i] == Some(q.written[i]))
      && |q.copied| <= |q.used| && (forall i :: 0 <= i < |q.copied| ==> q.copied[i] == Some(q.written[i]))
  {
    hide After, Runs, Stored, IndexesMatch, Held, CountMatches;
    FreshIsSound<T>(n);
    RunIsSound(Fresh<T>(n), ss, guarded);
  }

  /** For a consumer that tests size() first, the ASSERT of updateReadIndex never fires. */
  lemma GuardedNeverAborts<T>(n: nat, ss: seq<Step<T>>)
    requires n > 0 && Runs(Fresh<T>(n), ss, true)
    ensures !After(Fresh<T>(n), ss, true).aborted
  {
    hide After, Runs, Sound;
    FreshIsSound<T>(n);
    RunIsSound(Fresh<T>(n), ss, true);
  }

  /** Without the test, the ASSERT fires exactly if it is reached while the producer is between
      publishing the index and counting, and everything published has been taken. */
  lemma AbortIff<T>(n: nat, ss: seq<Step<T>>, guarded: bool)
    requires n > 0 && Runs(Fresh<T>(n), ss, guarded)
    ensures var q := After(Fresh<T>(n), ss, guarded);
      Enabled(q, Assert, guarded) ==> (Next(q, Assert, guarded).aborted <==> q.producer == Published && Pending(q) == 0)
  {
    hide After, Runs, Stored, Held, Delivered;
    FreshIsSound<T>(n);
    RunIsSound(Fresh<T>(n), ss, guarded);
  }

  /** A run in which the consumer takes an element before the producer has counted it. */
  function Overtaking<T>(v: T): seq<Step<T>> {
    [Begin, Store(v), Publish, Look, Size, Use, Advance, Assert]
  }

  /** The ring of two slots after `i` steps of that run. */
  function Overtaken<T>(v: T, i: nat): Ring<T>
    requires i <= 8
  {
    if i == 0 then Fresh<T>(2)
    else if i == 1 then Fresh<T>(2).(producer := Writing)
    else
      var q := Ring([Some(v), None], 0, 0, 0, Written, Ready, false, [v], [], []);
      if i == 2 then q
      else
        var r := q.(writeIndex := 1, producer := Published);
        if i == 3 then r
        else if i == 4 then r.(consumer := Looked(0))
        else if i == 5 then r.(consumer := Sized(0))
        else if i == 6 then r.(consumer := Used(0), used := [Some(v)])
        else r.(consumer := Advanced(0), used := [Some(v)], readIndex := 1, aborted := i == 8)
  }

  lemma OvertakenStep<T>(v: T, i: nat)
    requires i < 8
    ensures var q, s := Overtaken(v, i), Overtaking(v)[i];
      Enabled(q, s, false) && Bounded(q, s) && Next(q, s, false) == Overtaken(v, i + 1)
  {
    var q := Overtaken(v, i);
    assert i == 0 ==> q.store[0 := None] == q.store;
    assert i == 1 ==> q.store[0 := Some(v)] == [Some(v), None];
  }

  lemma {:induction false} OvertakenRuns<T>(v: T, i: nat)
    requires i <= 8
    ensures Runs(Overtaken(v, i), Overtaking(v)[i..], false)
    ensures After(Overtaken(v, i), Overtaking(v)[i..], false) == Overtaken(v, 8)
    decreases 8 - i
  {
    if i < 8 {
      hide Next, Enabled, Overtaken;
      OvertakenStep(v, i);
      OvertakenRuns(v, i + 1);
      assert Overtaking(v)[i..][1..] == Overtaking(v)[i + 1..];
    }
  }

  /** One element is enough for the ASSERT to fire on an unguarded consumer. */
  lemma UnguardedCanAbort<T>(v: T)
    ensures Runs(Fresh<T>(2), Overtaking(v), false) && After(Fresh<T>(2), Overtaking(v), false).aborted
  {
    hide Runs, After;
    OvertakenRuns(v, 0);
    assert Overtaking(v)[0..] == Overtaking(v);
  }

  // ----- The late copy

  /** With the consumer past updateReadIndex, the slot it still copies from is the producer's next slot
      exactly if N - 1 elements are pending, which is one more than the ring's bound lets a write
      begin with. */
  lemma LateCopyIsSafeIff<T>(q: Ring<T>)
    requires Sound(q) && q.consumer.Released?
    ensures q.consumer.slot == q.writeIndex <==> Pending(q) + 1 == |q.store|
  {
    hide SlotAt;
    var n := |q.store|;
    if Pending(q) + 1 == n {
      SlotsMeet(Low(q), n);
    } else {
      SlotsDiffer(Low(q), Puts(q), n);
    }
  }

  // ----- Every element is reached

  /** A guarded consumer that looks at an element is sent back by its size() test exactly if nothing is
      counted; otherwise it goes on to use it. */
  lemma TestPassesIff<T>(q: Ring<T>)
    requires Enabled(q, Size, true)
    ensures Next(q, Size, true).consumer.Ready? <==> q.count == 0
    ensures q.count > 0 ==> Next(q, Size, true).consumer == Sized(q.consumer.slot)
  {
  }

  /** What a consumer does next, wherever it is. */
  function OwnStep<T>(c: Consumer): Step<T> {
    match c
    case Ready => Look
    case Looked(_) => Size
    case Sized(_) => Use
    case Used(_) => Advance
    case Advanced(_) => Assert
    case Asserted(_) => Decrement
    case Released(_) => Copy
  }

  /** How many steps of its own a consumer still has to do, with seven for each element it has not begun. */
  function Effort<T>(q: Ring<T>): int {
    var begun := match q.consumer
      case Ready => 0 case Looked(_) => 1 case Sized(_) => 2 case Used(_) => 3
      case Advanced(_) => 4 case Asserted(_) => 5 case Released(_) => 6;
    7 * (|q.written| - Low(q)) - begun
  }

  /** The consumer is done: it waits, and every element written has been used and copied. */
  ghost predicate Drained<T>(q: Ring<T>) {
    && q.consumer.Ready? && q.count == 0 && !q.aborted
    && |q.used| == |q.copied| == |q.written|
    && forall i :: 0 <= i < |q.written| ==> q.used[i] == q.copied[i] == Some(q.written[i])
  }

  lemma OwnStepHelps<T>(q: Ring<T>, guarded: bool)
    requires Sound(q) && q.producer == Idle && !q.aborted && Effort(q) > 0
    ensures var s := OwnStep<T>(q.consumer);
      && Enabled(q, s, guarded) && Bounded(q, s)
      && Sound(Next(q, s, guarded)) && Next(q, s, guarded).producer == Idle && !Next(q, s, guarded).aborted
      && Next(q, s, guarded).written == q.written && Effort(Next(q, s, guarded)) == Effort(q) - 1
  {
    var s := OwnStep<T>(q.consumer);
    if q.consumer.Ready? {
      SlotsDiffer(Takes(q), Puts(q), |q.store|);
    }
    hide SlotAt, Stored, Delivered;
    ConsumerKeepsSound(q, s, guarded);
  }

  lemma NothingLeft<T>(q: Ring<T>)
    requires Sound(q) && q.producer == Idle && !q.aborted && Effort(q) <= 0
    ensures Effort(q) == 0 && Drained(q)
  {
    hide SlotAt, Stored;
  }

  lemma {:induction false} OwnStepsDrain<T>(q: Ring<T>, guarded: bool) returns (ss: seq<Step<T>>)
    requires Sound(q) && q.producer == Idle && !q.aborted
    ensures |ss| == Effort(q) && Runs(q, ss, guarded)
    ensures After(q, ss, guarded).written == q.written && Drained(After(q, ss, guarded))
    decreases Effort(q)
  {
    hide Sound, Enabled, Next, Drained, Effort;
    ss := [];
    if Effort(q) > 0 {
      OwnStepHelps(q, guarded);
      var s := OwnStep<T>(q.consumer);
      var rest := OwnStepsDrain(Next(q, s, guarded), guarded);
      ss := [s] + rest;
      assert ss[1..] == rest;
    } else {
      NothingLeft(q);
    }
  }

  /** Every element is reached: after every run in which the producer pauses between elements, the consumer's
      own steps, seven for each element not begun, end with everything used and copied in order and nothing
      counted. A guarded consumer always gets there; an unguarded one does if it has not been stopped. */
  lemma EveryElementIsReached<T>(n: nat, before: seq<Step<T>>, guarded: bool) returns (ss: seq<Step<T>>)
    requires n > 0 && Runs(Fresh<T>(n), before, guarded)
    requires var q := After(Fresh<T>(n), before, guarded); q.producer == Idle && (guarded || !q.aborted)
    ensures var q := After(Fresh<T>(n), before, guarded);
      && |ss| == Effort(q) && Runs(q, ss, guarded)
      && After(q, ss, guarded).written == q.written && Drained(After(q, ss, guarded))
  {
    hide After, Runs, Sound, Effort, Drained;
    FreshIsSound<T>(n);
    RunIsSound(Fresh<T>(n), before, guarded);
    ss := OwnStepsDrain(After(Fresh<T>(n), before, guarded), guarded);
  }
}
