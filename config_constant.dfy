/** The bounded accumulator of the config-constant pallet: a single u32 cell
    (`SingleValue`, 0 until first written) that `add_value` increases by a
    bounded, overflow-checked addend and that the `on_finalize` hook clears
    every `ClearFrequency` blocks. Both configuration constants are fixed
    when the pallet is built; each successful change deposits one event. */
module ConfigConstant {

  const U32_MAX: nat := 0xFFFF_FFFF

  type U32 = x: nat | x <= U32_MAX

  type BlockNumber = nat

  /** A clear frequency; the hook divides by it, so it is never 0. */
  type Period = f: nat | f > 0 witness 1

  /** The pallet's events: `Added(old, addend, new)` and `Cleared(old)`. */
  datatype Event = Added(before: U32, addend: U32, after: U32) | Cleared(before: U32)

  /** `InvalidAmount` stands for the string error of the `ensure!` on the addend. */
  datatype Error = InvalidAmount | Overflow

  datatype Outcome = Ok | Err(error: Error)

  datatype Option<T> = None | Some(value: T)

  /** `u32::checked_add`: the sum when it is representable, nothing otherwise. */
  function CheckedAdd(a: U32, b: U32): (r: Option<U32>)
    ensures r.Some? <==> a + b <= U32_MAX
    ensures r.Some? ==> r.value == a + b
  {
    if a + b <= U32_MAX then Some(a + b) else None
  }

  /** The hook's guard: block `n` is one at which the cell is cleared. */
  predicate ClearDue(n: BlockNumber, freq: Period)
  {
    n % freq == 0
  }

  /** Clearing happens at every multiple of the frequency and at no block in
      between: of the blocks `k * freq`, ..., `k * freq + freq - 1` only the
      first is due. */
  lemma ClearSchedule(k: nat, i: nat, freq: Period)
    requires i < freq
    ensures ClearDue(k * freq + i, freq) <==> i == 0
  {
    RemainderUnique(k * freq + i, freq, k, i);
  }

  /** Euclidean division has one quotient and one remainder. */
  lemma RemainderUnique(x: nat, f: Period, q: nat, r: nat)
    requires r < f && x == q * f + r
    ensures x % f == r
  {
    var q0, r0 := x / f, x % f;
    assert x == q0 * f + r0;
    assert (q - q0) * f == r0 - r;
    // Two quotients a whole step or more apart would put the remainders at
    // least `f` apart.
    if q > q0 {
      StepAtLeastPeriod(q - q0, f);
    } else if q < q0 {
      StepAtLeastPeriod(q0 - q, f);
    }
  }

  lemma StepAtLeastPeriod(d: int, f: nat)
    requires d >= 1
    ensures d * f >= f
  {
  }

  /** The cell and the events the pallet has deposited. */
  datatype Cell = Cell(value: U32, events: seq<Event>)

  /** `add_value(val_to_add)` from cell `c`: an addend above `maxAddend` is
      refused, an addend whose sum does not fit in a u32 fails with
      `Overflow`, and a refused call changes neither the cell nor the events;
      otherwise the cell holds the exact sum and one `Added` event records the
      old value, the addend and the new value. */
  function AddValueStep(maxAddend: U32, c: Cell, x: U32): (r: (Outcome, Cell))
    ensures r.0 == Err(InvalidAmount) <==> x > maxAddend
    ensures r.0 == Err(Overflow) <==> x <= maxAddend && c.value + x > U32_MAX
    ensures r.0.Err? ==> r.1 == c
    ensures r.0.Ok? ==> r.1.value == c.value + x
    ensures r.0.Ok? ==> r.1.events == c.events + [Added(c.value, x, c.value + x)]
  {
    if x > maxAddend then (Err(InvalidAmount), c)
    else
      match CheckedAdd(c.value, x)
      case None => (Err(Overflow), c)
      case Some(sum) => (Ok, Cell(sum, c.events + [Added(c.value, x, sum)]))
  }

  /** `on_finalize(n)` from cell `c`: at a due block the cell becomes 0 and one
      `Cleared` event records the old value, even when it was already 0; at
      any other block nothing changes. */
  function FinalizeStep(freq: Period, c: Cell, n: BlockNumber): (r: Cell)
    ensures ClearDue(n, freq) ==> r.value == 0 && r.events == c.events + [Cleared(c.value)]
    ensures !ClearDue(n, freq) ==> r == c
  {
    if ClearDue(n, freq) then Cell(0, c.events + [Cleared(c.value)]) else c
  }

  /** Running the hook twice for the same block leaves the cell as running it once. */
  lemma FinalizeIdempotent(freq: Period, c: Cell, n: BlockNumber)
    ensures FinalizeStep(freq, FinalizeStep(freq, c, n), n).value == FinalizeStep(freq, c, n).value
  {
  }

  /** The cell value an event was deposited from, and the value it left behind. */
  function Before(e: Event): U32
  {
    match e
    case Added(b, _, _) => b
    case Cleared(b) => b
  }

  function After(e: Event): U32
  {
    match e
    case Added(_, _, a) => a
    case Cleared(_) => 0
  }

  /** An `Added` event records an addend within the bound and its exact sum. */
  predicate Sound(e: Event, maxAddend: U32)
  {
    e.Added? ==> e.addend <= maxAddend && e.after == e.before + e.addend
  }

  /** `events` is a faithful history of a cell that held `start` before the
      first of them and holds `end` after the last: each event is sound and
      starts from the value the previous one left. */
  predicate Chained(start: U32, events: seq<Event>, end: U32, maxAddend: U32)
    decreases |events|
  {
    if events == [] then start == end
    else Before(events[0]) == start && Sound(events[0], maxAddend)
         && Chained(After(events[0]), events[1..], end, maxAddend)
  }

  /** The value a history leaves behind: its last event's post-state. */
  function Replay(start: U32, events: seq<Event>): U32
  {
    if events == [] then start else After(events[|events| - 1])
  }

  /** A sound event that starts where a history ends extends it. */
  lemma {:induction false} ChainedAppend(start: U32, es: seq<Event>, mid: U32, e: Event, maxAddend: U32)
    requires Chained(start, es, mid, maxAddend)
    requires Before(e) == mid && Sound(e, maxAddend)
    ensures Chained(start, es + [e], After(e), maxAddend)
    decreases |es|
  {
    if es == [] {
      assert es + [e] == [e];
    } else {
      assert (es + [e])[1..] == es[1..] + [e];
      ChainedAppend(After(es[0]), es[1..], mid, e, maxAddend);
    }
  }

  /** The events alone determine the cell: whoever reads them can rebuild its value. */
  lemma {:induction false} ChainedReplays(start: U32, es: seq<Event>, end: U32, maxAddend: U32)
    requires Chained(start, es, end, maxAddend)
    ensures end == Replay(start, es)
    decreases |es|
  {
    if es != [] {
      ChainedReplays(After(es[0]), es[1..], end, maxAddend);
      if |es| > 1 {
        assert es[1..][|es[1..]| - 1] == es[|es| - 1];
      }
    }
  }

  /** `add_value` keeps the event log a faithful history of the cell from genesis. */
  lemma AddValueKeepsHistory(maxAddend: U32, c: Cell, x: U32)
    requires Chained(0, c.events, c.value, maxAddend)
    ensures var r := AddValueStep(maxAddend, c, x);
            Chained(0, r.1.events, r.1.value, maxAddend)
  {
    var r := AddValueStep(maxAddend, c, x);
    if r.0.Ok? {
      ChainedAppend(0, c.events, c.value, Added(c.value, x, c.value + x), maxAddend);
    }
  }

  /** `on_finalize` keeps the event log a faithful history of the cell from genesis. */
  lemma FinalizeKeepsHistory(freq: Period, c: Cell, n: BlockNumber, maxAddend: U32)
    requires Chained(0, c.events, c.value, maxAddend)
    ensures var r := FinalizeStep(freq, c, n);
            Chained(0, r.events, r.value, maxAddend)
  {
    if ClearDue(n, freq) {
      ChainedAppend(0, c.events, c.value, Cleared(c.value), maxAddend);
    }
  }

  /** The pallet's configuration, its storage cell and the events it has deposited. */
  class Accumulator {
    const maxAddend: U32
    const clearFrequency: Period
    var value: U32
    var events: seq<Event>

    /** The events are the cell's whole history since genesis. */
    ghost predicate Valid()
      reads this
    {
      Chained(0, events, value, maxAddend)
    }

    /** Genesis: `SingleValue` reads 0 and no event has been deposited. */
    constructor (maxAddend: U32, clearFrequency: Period)
      ensures this.maxAddend == maxAddend && this.clearFrequency == clearFrequency
      ensures value == 0 && events == []
      ensures Valid()
    {
      this.maxAddend := maxAddend;
      this.clearFrequency := clearFrequency;
      value := 0;
      events := [];
    }

    /** `add_value`: refuse an addend above `MaxAddend`, refuse a sum that
        overflows, otherwise store the sum and deposit `Added`. */
    method AddValue(x: U32) returns (r: Outcome)
      requires Valid()
      modifies this
      ensures (r, Cell(value, events)) == AddValueStep(maxAddend, old(Cell(value, events)), x)
      ensures Valid() && value == Replay(0, events)
    {
      AddValueKeepsHistory(maxAddend, Cell(value, events), x);
      ghost var after := AddValueStep(maxAddend, Cell(value, events), x).1;
      ChainedReplays(0, after.events, after.value, maxAddend);
      if x > maxAddend {
        return Err(InvalidAmount);
      }
      var current := value;
      match CheckedAdd(current, x)
      case None =>
        return Err(Overflow);
      case Some(sum) =>
        value := sum;
        events := events + [Added(current, x, sum)];
        return Ok;
    }

    /** `on_finalize(n)`: at a due block read the cell, store 0 and deposit `Cleared`. */
    method OnFinalize(n: BlockNumber)
      requires Valid()
      modifies this
      ensures Cell(value, events) == FinalizeStep(clearFrequency, old(Cell(value, events)), n)
      ensures Valid() && value == Replay(0, events)
    {
      FinalizeKeepsHistory(clearFrequency, Cell(value, events), n, maxAddend);
      ghost var after := FinalizeStep(clearFrequency, Cell(value, events), n);
      ChainedReplays(0, after.events, after.value, maxAddend);
      if ClearDue(n, clearFrequency) {
        var current := value;
        value := 0;
        events := events + [Cleared(current)];
      }
    }
  }
}
