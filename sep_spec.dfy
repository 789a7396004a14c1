/**
 * The plain student-exchange matcher as a pure state machine.
 *
 * A run of `deferred_acceptance` is a sequence of iterations of its `while`
 * loop.  Between two iterations the whole state is: every student's proposal
 * cursor, every school's (sorted) occupant list, and the FIFO queue of students
 * still to be served.  `Step` is one iteration; the lemmas below show that it
 * keeps the invariant `Inv`, that it strictly decreases a measure, and that a
 * state satisfying `Inv` with an empty queue is weakly stable.
 */
module SepSpec {
  import opened Base
  import opened Roster

  /** What the matcher reads from a student: name, GPA and stripped preferences. */
  datatype Applicant = Applicant(name: string, gpa: int, preferences: seq<string>)

  /** What the matcher reads from a school: name and quota. */
  datatype Seat = Seat(name: string, quota: nat)

  /** The loop state: cursors and queue entries are indices into the student list,
      rosters are in the order of the school list. */
  datatype Run = Run(cursors: seq<nat>, rosters: seq<seq<Entry>>, queue: seq<nat>)

  /** One iteration either yields the next state or raises `KeyError(key)`. */
  datatype Outcome = Next(run: Run) | KeyError(key: string)

  function Names(apps: seq<Applicant>): (r: seq<string>)
    ensures |r| == |apps| && forall i :: 0 <= i < |apps| ==> r[i] == apps[i].name
  {
    seq(|apps|, i requires 0 <= i < |apps| => apps[i].name)
  }

  function SeatNames(seats: seq<Seat>): (r: seq<string>)
    ensures |r| == |seats| && forall k :: 0 <= k < |seats| ==> r[k] == seats[k].name
  {
    seq(|seats|, k requires 0 <= k < |seats| => seats[k].name)
  }

  /** The dictionaries of the source are keyed by name, so names are unique. */
  predicate WellFormed(apps: seq<Applicant>, seats: seq<Seat>) {
    Distinct(Names(apps)) && Distinct(SeatNames(seats))
  }

  /** The `(gpa, name)` tuple a student occupies a seat with. */
  function EntryOf(a: Applicant): Entry {
    Entry(a.gpa, a.name)
  }

  /** The state before the first iteration: nothing proposed, nobody seated, every
      student queued in input order. */
  function Start(apps: seq<Applicant>, seats: seq<Seat>): Run {
    Run(seq(|apps|, _ => 0), seq(|seats|, _ => []), seq(|apps|, i => i))
  }

  predicate Shaped(apps: seq<Applicant>, seats: seq<Seat>, r: Run) {
    && |r.cursors| == |apps|
    && |r.rosters| == |seats|
    && (forall i :: 0 <= i < |apps| ==> r.cursors[i] <= |apps[i].preferences|)
    && (forall q :: 0 <= q < |r.queue| ==> r.queue[q] < |apps|)
  }

  /** The school, by position, that student `i`'s `j`-th preference names. */
  function SchoolOf(apps: seq<Applicant>, seats: seq<Seat>, i: nat, j: nat): (k: Option<nat>)
    requires i < |apps| && j < |apps[i].preferences|
    ensures k.Some? ==> k.value < |seats| && seats[k.value].name == apps[i].preferences[j]
    ensures k.None? <==> apps[i].preferences[j] !in SeatNames(seats)
  {
    IndexOf(SeatNames(seats), apps[i].preferences[j])
  }

  /** One iteration of the loop: pop the head of the queue; if it has a preference
      left, advance its cursor and let that school consider it; re-queue whoever
      the school returns. */
  function Step(apps: seq<Applicant>, seats: seq<Seat>, r: Run): Outcome
    requires Shaped(apps, seats, r) && r.queue != []
  {
    var i := r.queue[0];
    var rest := r.queue[1..];
    var c := r.cursors[i];
    if c == |apps[i].preferences| then
      Next(Run(r.cursors, r.rosters, rest))
    else
      match SchoolOf(apps, seats, i, c)
      case None => KeyError(apps[i].preferences[c])
      case Some(k) =>
        var a := Admit(r.rosters[k], seats[k].quota, EntryOf(apps[i]));
        var cursors := r.cursors[i := c + 1];
        var rosters := r.rosters[k := a.kept];
        match a.removed
        case None => Next(Run(cursors, rosters, rest))
        case Some(x) =>
          match IndexOf(Names(apps), x.name)
          case None => KeyError(x.name)
          case Some(o) => Next(Run(cursors, rosters, rest + [o]))
  }

  /** The school at which student `i` currently holds a seat: the school of its
      latest proposal, provided its entry is in that school's roster. */
  function HeldAt(apps: seq<Applicant>, seats: seq<Seat>, r: Run, i: nat): (k: Option<nat>)
    requires Shaped(apps, seats, r) && i < |apps|
    ensures k.Some? ==> k.value < |seats| && EntryOf(apps[i]) in r.rosters[k.value]
  {
    var c := r.cursors[i];
    if c == 0 then None
    else match SchoolOf(apps, seats, i, c - 1)
      case None => None
      case Some(k) => if EntryOf(apps[i]) in r.rosters[k] then Some(k) else None
  }

  /** How many of student `i`'s proposals have been turned down for good: all of
      them, or all but the latest when that one still holds a seat. */
  function Rejected(apps: seq<Applicant>, seats: seq<Seat>, r: Run, i: nat): (n: nat)
    requires Shaped(apps, seats, r) && i < |apps|
    ensures n <= r.cursors[i]
  {
    if HeldAt(apps, seats, r, i).Some? then r.cursors[i] - 1 else r.cursors[i]
  }

  /** Every roster is sorted best-first, within its quota and without repeats. */
  ghost predicate RostersOk(seats: seq<Seat>, r: Run)
    requires |r.rosters| == |seats|
  {
    forall k :: 0 <= k < |seats| ==>
      SortedDesc(r.rosters[k]) && |r.rosters[k]| <= seats[k].quota && Distinct(r.rosters[k])
  }

  /** The occupant at position `p` of school `k` is the entry of a student who holds
      that very seat. */
  ghost predicate OccupantOk(apps: seq<Applicant>, seats: seq<Seat>, r: Run, k: nat, p: nat)
    requires Shaped(apps, seats, r) && k < |seats| && p < |r.rosters[k]|
  {
    var o := IndexOf(Names(apps), r.rosters[k][p].name);
    o.Some? && r.rosters[k][p] == EntryOf(apps[o.value]) && HeldAt(apps, seats, r, o.value) == Some(k)
  }

  ghost predicate EntriesHeld(apps: seq<Applicant>, seats: seq<Seat>, r: Run)
    requires Shaped(apps, seats, r)
  {
    forall k, p :: 0 <= k < |seats| && 0 <= p < |r.rosters[k]| ==> OccupantOk(apps, seats, r, k, p)
  }

  /** The queue has no repeats and holds nobody who is seated. */
  ghost predicate QueueOk(apps: seq<Applicant>, seats: seq<Seat>, r: Run)
    requires Shaped(apps, seats, r)
  {
    Distinct(r.queue) && forall q :: 0 <= q < |r.queue| ==> HeldAt(apps, seats, r, r.queue[q]).None?
  }

  /** Student `i` is queued, seated, or has proposed to every school on its list. */
  ghost predicate StudentPlaced(apps: seq<Applicant>, seats: seq<Seat>, r: Run, i: nat)
    requires Shaped(apps, seats, r) && i < |apps|
  {
    i in r.queue || HeldAt(apps, seats, r, i).Some? || r.cursors[i] == |apps[i].preferences|
  }

  ghost predicate Placed(apps: seq<Applicant>, seats: seq<Seat>, r: Run)
    requires Shaped(apps, seats, r)
  {
    forall i :: 0 <= i < |apps| ==> StudentPlaced(apps, seats, r, i)
  }

  /** Every proposal made so far named a known school (an unknown one ends the run). */
  ghost predicate Proposed(apps: seq<Applicant>, seats: seq<Seat>, r: Run)
    requires Shaped(apps, seats, r)
  {
    forall i, j :: 0 <= i < |apps| && 0 <= j < r.cursors[i] ==> SchoolOf(apps, seats, i, j).Some?
  }

  /** The school of student `i`'s `j`-th choice is full of students whose GPA is at
      least `i`'s. */
  ghost predicate RejectionOk(apps: seq<Applicant>, seats: seq<Seat>, r: Run, i: nat, j: nat)
    requires Shaped(apps, seats, r) && i < |apps| && j < |apps[i].preferences|
  {
    match SchoolOf(apps, seats, i, j)
    case None => false
    case Some(k) => FullAbove(r.rosters[k], seats[k].quota, apps[i].gpa)
  }

  /** Every school that turned a student down is full of students with a GPA at
      least the student's. */
  ghost predicate RejectedFull(apps: seq<Applicant>, seats: seq<Seat>, r: Run)
    requires Shaped(apps, seats, r)
  {
    forall i, j :: 0 <= i < |apps| && 0 <= j < Rejected(apps, seats, r, i) ==> RejectionOk(apps, seats, r, i, j)
  }

  ghost predicate Inv(apps: seq<Applicant>, seats: seq<Seat>, r: Run) {
    && WellFormed(apps, seats)
    && Shaped(apps, seats, r)
    && RostersOk(seats, r)
    && EntriesHeld(apps, seats, r)
    && QueueOk(apps, seats, r)
    && Placed(apps, seats, r)
    && Proposed(apps, seats, r)
    && RejectedFull(apps, seats, r)
  }

  /** Proposals not yet made, summed over all students: the first half of the
      measure that every iteration decreases. */
  function Pending(apps: seq<Applicant>, cursors: seq<nat>): nat
    requires |cursors| == |apps|
    requires forall i :: 0 <= i < |apps| ==> cursors[i] <= |apps[i].preferences|
  {
    if apps == [] then 0
    else
      var n := |apps| - 1;
      (|apps[n].preferences| - cursors[n]) + Pending(apps[..n], cursors[..n])
  }

  lemma {:induction false} PendingAdvance(apps: seq<Applicant>, cursors: seq<nat>, i: nat)
    requires |cursors| == |apps|
    requires forall j :: 0 <= j < |apps| ==> cursors[j] <= |apps[j].preferences|
    requires i < |apps| && cursors[i] < |apps[i].preferences|
    ensures Pending(apps, cursors[i := cursors[i] + 1]) == Pending(apps, cursors) - 1
  {
    var n := |apps| - 1;
    var c2 := cursors[i := cursors[i] + 1];
    if i == n {
      assert c2[..n] == cursors[..n];
    } else {
      assert c2[..n] == cursors[..n][i := cursors[i] + 1];
      PendingAdvance(apps[..n], cursors[..n], i);
    }
  }

  /** The measure: pending proposals first, then the length of the queue. */
  predicate Decreases(apps: seq<Applicant>, seats: seq<Seat>, r: Run, r2: Run)
    requires Shaped(apps, seats, r) && Shaped(apps, seats, r2)
  {
    || Pending(apps, r2.cursors) < Pending(apps, r.cursors)
    || (Pending(apps, r2.cursors) == Pending(apps, r.cursors) && |r2.queue| < |r.queue|)
  }

  lemma {:induction false} NameIndex(apps: seq<Applicant>, t: nat)
    requires Distinct(Names(apps)) && t < |apps|
    ensures IndexOf(Names(apps), apps[t].name) == Some(t)
  {
    IndexOfDistinct(Names(apps), t);
  }

  /** The initial state satisfies the invariant. */
  lemma {:induction false} StartInv(apps: seq<Applicant>, seats: seq<Seat>)
    requires WellFormed(apps, seats)
    ensures Inv(apps, seats, Start(apps, seats))
  {
    var r := Start(apps, seats);
    forall i | 0 <= i < |apps| ensures i in r.queue {
      assert r.queue[i] == i;
    }
  }

  /** A student whose entry sits in a roster holds a seat exactly there. */
  lemma {:induction false} SeatedHeld(apps: seq<Applicant>, seats: seq<Seat>, r: Run, t: nat, k: nat)
    requires Inv(apps, seats, r) && t < |apps| && k < |seats|
    requires EntryOf(apps[t]) in r.rosters[k]
    ensures HeldAt(apps, seats, r, t) == Some(k)
  {
    var p :| 0 <= p < |r.rosters[k]| && r.rosters[k][p] == EntryOf(apps[t]);
    assert OccupantOk(apps, seats, r, k, p);
    NameIndex(apps, t);
  }

  /** A student who holds no seat appears in no roster. */
  lemma {:induction false} NotSeated(apps: seq<Applicant>, seats: seq<Seat>, r: Run, t: nat)
    requires Inv(apps, seats, r) && t < |apps|
    requires HeldAt(apps, seats, r, t).None?
    ensures forall k :: 0 <= k < |seats| ==> EntryOf(apps[t]) !in r.rosters[k]
  {
    forall k | 0 <= k < |seats| ensures EntryOf(apps[t]) !in r.rosters[k] {
      if EntryOf(apps[t]) in r.rosters[k] {
        SeatedHeld(apps, seats, r, t, k);
      }
    }
  }

  /** Distinct students have distinct entries. */
  lemma {:induction false} EntryInjective(apps: seq<Applicant>, t: nat, u: nat)
    requires Distinct(Names(apps)) && t < |apps| && u < |apps| && t != u
    ensures EntryOf(apps[t]) != EntryOf(apps[u])
  {
    assert Names(apps)[t] != Names(apps)[u];
  }

  // ---------------------------------------------------------------------------
  // An iteration that ends with the student exhausted.

  /** Two states with the same cursors and rosters agree on every seat and rejection. */
  lemma {:induction false} SameSeats(apps: seq<Applicant>, seats: seq<Seat>, r: Run, r2: Run)
    requires Shaped(apps, seats, r) && Shaped(apps, seats, r2)
    requires r2.cursors == r.cursors && r2.rosters == r.rosters
    ensures forall t :: 0 <= t < |apps| ==>
      HeldAt(apps, seats, r2, t) == HeldAt(apps, seats, r, t) &&
      Rejected(apps, seats, r2, t) == Rejected(apps, seats, r, t)
  {
  }

  lemma {:induction false} SameSeatsEntries(apps: seq<Applicant>, seats: seq<Seat>, r: Run, r2: Run)
    requires Shaped(apps, seats, r) && Shaped(apps, seats, r2)
    requires r2.cursors == r.cursors && r2.rosters == r.rosters
    requires EntriesHeld(apps, seats, r)
    ensures EntriesHeld(apps, seats, r2)
  {
    SameSeats(apps, seats, r, r2);
    forall k, p | 0 <= k < |seats| && 0 <= p < |r.rosters[k]| ensures OccupantOk(apps, seats, r2, k, p) {
      assert OccupantOk(apps, seats, r, k, p);
    }
  }

  lemma {:induction false} SameSeatsRejected(apps: seq<Applicant>, seats: seq<Seat>, r: Run, r2: Run)
    requires Shaped(apps, seats, r) && Shaped(apps, seats, r2)
    requires r2.cursors == r.cursors && r2.rosters == r.rosters
    requires RejectedFull(apps, seats, r)
    ensures RejectedFull(apps, seats, r2)
  {
    SameSeats(apps, seats, r, r2);
    forall t, j | 0 <= t < |apps| && 0 <= j < Rejected(apps, seats, r2, t)
      ensures RejectionOk(apps, seats, r2, t, j)
    {
      assert RejectionOk(apps, seats, r, t, j);
    }
  }

  lemma {:induction false} StepExhaustedKeepsInv(apps: seq<Applicant>, seats: seq<Seat>, r: Run)
    requires Inv(apps, seats, r) && r.queue != []
    requires r.cursors[r.queue[0]] == |apps[r.queue[0]].preferences|
    ensures Step(apps, seats, r) == Next(Run(r.cursors, r.rosters, r.queue[1..]))
    ensures Inv(apps, seats, Step(apps, seats, r).run)
  {
    var r2 := Run(r.cursors, r.rosters, r.queue[1..]);
    assert Shaped(apps, seats, r2);
    SameSeatsEntries(apps, seats, r, r2);
    SameSeatsRejected(apps, seats, r, r2);
    DistinctTail(r.queue);
    ExhaustedQueueOk(apps, seats, r, r2);
    ExhaustedPlaced(apps, seats, r, r2);
  }

  lemma {:induction false} ExhaustedQueueOk(apps: seq<Applicant>, seats: seq<Seat>, r: Run, r2: Run)
    requires Inv(apps, seats, r) && r.queue != [] && Shaped(apps, seats, r2)
    requires r2 == Run(r.cursors, r.rosters, r.queue[1..])
    ensures QueueOk(apps, seats, r2)
  {
    SameSeats(apps, seats, r, r2);
    DistinctTail(r.queue);
    forall q | 0 <= q < |r2.queue| ensures HeldAt(apps, seats, r2, r2.queue[q]).None? {
      assert r2.queue[q] == r.queue[q + 1];
    }
  }

  lemma {:induction false} ExhaustedPlaced(apps: seq<Applicant>, seats: seq<Seat>, r: Run, r2: Run)
    requires Inv(apps, seats, r) && r.queue != [] && Shaped(apps, seats, r2)
    requires r.cursors[r.queue[0]] == |apps[r.queue[0]].preferences|
    requires r2 == Run(r.cursors, r.rosters, r.queue[1..])
    ensures Placed(apps, seats, r2)
  {
    SameSeats(apps, seats, r, r2);
    forall t | 0 <= t < |apps| ensures StudentPlaced(apps, seats, r2, t) {
      assert StudentPlaced(apps, seats, r, t);
      if t in r.queue && t != r.queue[0] {
        var q :| 0 <= q < |r.queue| && r.queue[q] == t;
        assert r2.queue[q - 1] == t;
      }
    }
  }

  // ---------------------------------------------------------------------------
  // An iteration in which the student proposes to a known school `k`.

  /** The entries of `Admit` at school `k` for the head of the queue. */
  function AdmitAt(apps: seq<Applicant>, seats: seq<Seat>, r: Run, k: nat): Admission
    requires Shaped(apps, seats, r) && r.queue != [] && k < |seats|
  {
    Admit(r.rosters[k], seats[k].quota, EntryOf(apps[r.queue[0]]))
  }

  /** The student re-queued after the admission, as the source looks it up by name. */
  function Requeued(apps: seq<Applicant>, seats: seq<Seat>, r: Run, k: nat): seq<nat>
    requires Shaped(apps, seats, r) && r.queue != [] && k < |seats|
  {
    match AdmitAt(apps, seats, r, k).removed
    case None => []
    case Some(x) =>
      match IndexOf(Names(apps), x.name)
      case None => []
      case Some(o) => [o]
  }

  /** `r2` is the state after the head of `r`'s queue proposed to school `k`. */
  ghost predicate Proposal(apps: seq<Applicant>, seats: seq<Seat>, r: Run, k: nat, r2: Run)
    requires Shaped(apps, seats, r) && r.queue != []
  {
    var i := r.queue[0];
    var c := r.cursors[i];
    && c < |apps[i].preferences|
    && SchoolOf(apps, seats, i, c) == Some(k)
    && r2.cursors == r.cursors[i := c + 1]
    && r2.rosters == r.rosters[k := AdmitAt(apps, seats, r, k).kept]
    && r2.queue == r.queue[1..] + Requeued(apps, seats, r, k)
  }

  /** The student popped by the school is found by name: the proposer itself, or a
      student who held a seat there. */
  lemma {:induction false} EvictedKnown(apps: seq<Applicant>, seats: seq<Seat>, r: Run, k: nat)
    requires Inv(apps, seats, r) && r.queue != [] && k < |seats|
    requires HeldAt(apps, seats, r, r.queue[0]).None?
    requires AdmitAt(apps, seats, r, k).removed.Some?
    ensures var x := AdmitAt(apps, seats, r, k).removed.value;
      var o := IndexOf(Names(apps), x.name);
      && o.Some? && x == EntryOf(apps[o.value])
      && (o.value == r.queue[0] || (x in r.rosters[k] && HeldAt(apps, seats, r, o.value) == Some(k)))
  {
    var i := r.queue[0];
    var a := AdmitAt(apps, seats, r, k);
    var x := a.removed.value;
    AdmitEvictsNewestMinimum(r.rosters[k], seats[k].quota, EntryOf(apps[i]));
    if x == EntryOf(apps[i]) {
      NameIndex(apps, i);
    } else {
      assert x in r.rosters[k];
      var p :| 0 <= p < |r.rosters[k]| && r.rosters[k][p] == x;
      assert OccupantOk(apps, seats, r, k, p);
    }
  }

  /** After the proposal the proposer holds a seat at `k` unless it was popped. */
  lemma {:induction false} HeldAfterProposalSelf(apps: seq<Applicant>, seats: seq<Seat>, r: Run, k: nat, r2: Run)
    requires Shaped(apps, seats, r) && r.queue != [] && Shaped(apps, seats, r2)
    requires Proposal(apps, seats, r, k, r2)
    requires EntryOf(apps[r.queue[0]]) !in r.rosters[k]
    ensures var i := r.queue[0];
      HeldAt(apps, seats, r2, i) ==
        if AdmitAt(apps, seats, r, k).removed == Some(EntryOf(apps[i])) then None else Some(k)
  {
    var i := r.queue[0];
    var e := EntryOf(apps[i]);
    AdmitCount(r.rosters[k], seats[k].quota, e, e);
  }

  /** After the proposal every other student holds what it held, unless popped. */
  lemma {:induction false} HeldAfterProposalOther(apps: seq<Applicant>, seats: seq<Seat>, r: Run, k: nat, r2: Run, t: nat)
    requires Inv(apps, seats, r) && r.queue != [] && Shaped(apps, seats, r2)
    requires Proposal(apps, seats, r, k, r2) && t < |apps| && t != r.queue[0]
    ensures HeldAt(apps, seats, r2, t) ==
        if AdmitAt(apps, seats, r, k).removed == Some(EntryOf(apps[t])) then None
        else HeldAt(apps, seats, r, t)
  {
    var i := r.queue[0];
    var e := EntryOf(apps[i]);
    var et := EntryOf(apps[t]);
    var a := AdmitAt(apps, seats, r, k);
    EntryInjective(apps, t, i);
    AdmitCount(r.rosters[k], seats[k].quota, e, et);
    DistinctCounts(r.rosters[k], et);
    if et in r.rosters[k] {
      SeatedHeld(apps, seats, r, t, k);
      HeldAfterAt(apps, seats, r, k, r2, t);
    } else {
      HeldAfterElsewhere(apps, seats, r, k, r2, t);
    }
  }

  /** A student seated at `k`: it keeps the seat exactly when its entry is kept. */
  lemma {:induction false} HeldAfterAt(apps: seq<Applicant>, seats: seq<Seat>, r: Run, k: nat, r2: Run, t: nat)
    requires Shaped(apps, seats, r) && r.queue != [] && Shaped(apps, seats, r2)
    requires Proposal(apps, seats, r, k, r2) && t < |apps| && t != r.queue[0]
    requires HeldAt(apps, seats, r, t) == Some(k)
    ensures HeldAt(apps, seats, r2, t) ==
        if EntryOf(apps[t]) in AdmitAt(apps, seats, r, k).kept then Some(k) else None
  {
    assert r2.cursors[t] == r.cursors[t];
    assert r2.rosters[k] == AdmitAt(apps, seats, r, k).kept;
  }

  /** A student whose entry is not at `k` is unaffected. */
  lemma {:induction false} HeldAfterElsewhere(apps: seq<Applicant>, seats: seq<Seat>, r: Run, k: nat, r2: Run, t: nat)
    requires Shaped(apps, seats, r) && r.queue != [] && Shaped(apps, seats, r2)
    requires Proposal(apps, seats, r, k, r2) && t < |apps| && t != r.queue[0]
    requires EntryOf(apps[t]) !in r.rosters[k] && EntryOf(apps[t]) !in AdmitAt(apps, seats, r, k).kept
    ensures HeldAt(apps, seats, r2, t) == HeldAt(apps, seats, r, t)
  {
    assert r2.cursors[t] == r.cursors[t];
    var c := r.cursors[t];
    if c > 0 && SchoolOf(apps, seats, t, c - 1).Some? {
      var k2 := SchoolOf(apps, seats, t, c - 1).value;
      if k2 != k {
        assert r2.rosters[k2] == r.rosters[k2];
      } else {
        assert r2.rosters[k] == AdmitAt(apps, seats, r, k).kept;
      }
    }
  }

  /** The context of a proposal to school `k` by the head of the queue. */
  ghost predicate Ctx(apps: seq<Applicant>, seats: seq<Seat>, r: Run, k: nat, r2: Run) {
    && Inv(apps, seats, r) && r.queue != [] && Shaped(apps, seats, r2)
    && Proposal(apps, seats, r, k, r2)
    && HeldAt(apps, seats, r, r.queue[0]).None?
  }

  /** Who holds a seat after the proposal, for every student at once. */
  lemma {:induction false} HeldAfterAll(apps: seq<Applicant>, seats: seq<Seat>, r: Run, k: nat, r2: Run)
    requires Ctx(apps, seats, r, k, r2)
    ensures var i := r.queue[0]; var a := AdmitAt(apps, seats, r, k);
      HeldAt(apps, seats, r2, i) == (if a.removed == Some(EntryOf(apps[i])) then None else Some(k))
    ensures var i := r.queue[0]; var a := AdmitAt(apps, seats, r, k);
      forall t :: 0 <= t < |apps| && t != i ==>
        HeldAt(apps, seats, r2, t) ==
          if a.removed == Some(EntryOf(apps[t])) then None else HeldAt(apps, seats, r, t)
  {
    NotSeated(apps, seats, r, r.queue[0]);
    HeldAfterProposalSelf(apps, seats, r, k, r2);
    forall t | 0 <= t < |apps| && t != r.queue[0]
      ensures HeldAt(apps, seats, r2, t) ==
          if AdmitAt(apps, seats, r, k).removed == Some(EntryOf(apps[t])) then None
          else HeldAt(apps, seats, r, t)
    {
      HeldAfterProposalOther(apps, seats, r, k, r2, t);
    }
  }

  lemma {:induction false} ProposalRostersOk(apps: seq<Applicant>, seats: seq<Seat>, r: Run, k: nat, r2: Run)
    requires Ctx(apps, seats, r, k, r2)
    ensures RostersOk(seats, r2)
  {
    var e := EntryOf(apps[r.queue[0]]);
    var a := AdmitAt(apps, seats, r, k);
    AdmitContract(r.rosters[k], seats[k].quota, e);
    NotSeated(apps, seats, r, r.queue[0]);
    DistinctAppend(r.rosters[k], e);
    assert multiset(r.rosters[k] + [e]) == multiset(r.rosters[k]) + multiset{e};
    DistinctSubMultiset(a.kept, r.rosters[k] + [e]);
    assert r2.rosters[k] == a.kept;
  }

  lemma {:induction false} ProposalEntriesHeld(apps: seq<Applicant>, seats: seq<Seat>, r: Run, k: nat, r2: Run)
    requires Ctx(apps, seats, r, k, r2)
    ensures EntriesHeld(apps, seats, r2)
  {
    forall k2, p | 0 <= k2 < |seats| && 0 <= p < |r2.rosters[k2]|
      ensures OccupantOk(apps, seats, r2, k2, p)
    {
      if k2 != k {
        OccupantElsewhere(apps, seats, r, k, r2, k2, p);
      } else {
        OccupantAt(apps, seats, r, k, r2, p);
      }
    }
  }

  /** An occupant of another school keeps its seat. */
  lemma {:induction false} OccupantElsewhere(apps: seq<Applicant>, seats: seq<Seat>, r: Run, k: nat, r2: Run, k2: nat, p: nat)
    requires Ctx(apps, seats, r, k, r2) && k2 < |seats| && k2 != k && p < |r2.rosters[k2]|
    ensures OccupantOk(apps, seats, r2, k2, p)
  {
    assert OccupantOk(apps, seats, r, k2, p);
    var o := IndexOf(Names(apps), r.rosters[k2][p].name).value;
    if AdmitAt(apps, seats, r, k).removed == Some(EntryOf(apps[o])) {
      EvictedKnown(apps, seats, r, k);
      NameIndex(apps, o);
    }
    HeldAfterProposalOther(apps, seats, r, k, r2, o);
  }

  /** An occupant of school `k` after the proposal is the proposer or a student that
      held its seat there, and holds it still. */
  lemma {:induction false} OccupantAt(apps: seq<Applicant>, seats: seq<Seat>, r: Run, k: nat, r2: Run, p: nat)
    requires Ctx(apps, seats, r, k, r2) && p < |r2.rosters[k]|
    ensures OccupantOk(apps, seats, r2, k, p)
  {
    var i := r.queue[0];
    var e := EntryOf(apps[i]);
    var a := AdmitAt(apps, seats, r, k);
    var y := a.kept[p];
    AdmitCount(r.rosters[k], seats[k].quota, e, y);
    if y == e {
      NameIndex(apps, i);
      NotSeated(apps, seats, r, i);
      HeldAfterProposalSelf(apps, seats, r, k, r2);
    } else {
      assert y in r.rosters[k];
      var p0 :| 0 <= p0 < |r.rosters[k]| && r.rosters[k][p0] == y;
      assert OccupantOk(apps, seats, r, k, p0);
      DistinctCounts(r.rosters[k], y);
      HeldAfterProposalOther(apps, seats, r, k, r2, IndexOf(Names(apps), y.name).value);
    }
  }

  /** Nobody left in the queue after its head holds a seat, before or after. */
  lemma {:induction false} RestUnseated(apps: seq<Applicant>, seats: seq<Seat>, r: Run, k: nat, r2: Run)
    requires Ctx(apps, seats, r, k, r2)
    ensures forall q :: 1 <= q < |r.queue| ==> HeldAt(apps, seats, r2, r.queue[q]).None?
  {
    HeldAfterAll(apps, seats, r, k, r2);
    DistinctTail(r.queue);
    forall q | 1 <= q < |r.queue| ensures HeldAt(apps, seats, r2, r.queue[q]).None? {
      assert r.queue[q] != r.queue[0];
    }
  }

  lemma {:induction false} ProposalQueueOk(apps: seq<Applicant>, seats: seq<Seat>, r: Run, k: nat, r2: Run)
    requires Ctx(apps, seats, r, k, r2)
    ensures QueueOk(apps, seats, r2)
  {
    var rest := r.queue[1..];
    var a := AdmitAt(apps, seats, r, k);
    RestUnseated(apps, seats, r, k, r2);
    DistinctTail(r.queue);
    assert forall q :: 0 <= q < |rest| ==> rest[q] == r.queue[q + 1];
    if a.removed.Some? {
      EvictedKnown(apps, seats, r, k);
      var o := IndexOf(Names(apps), a.removed.value.name).value;
      assert r2.queue == rest + [o];
      NameIndex(apps, o);
      HeldAfterAll(apps, seats, r, k, r2);
      assert o !in rest by {
        assert forall q :: 0 <= q < |rest| ==> HeldAt(apps, seats, r, rest[q]).None?;
      }
      DistinctAppend(rest, o);
    } else {
      assert r2.queue == rest;
    }
  }

  lemma {:induction false} ProposalPlaced(apps: seq<Applicant>, seats: seq<Seat>, r: Run, k: nat, r2: Run)
    requires Ctx(apps, seats, r, k, r2)
    ensures Placed(apps, seats, r2)
  {
    var i := r.queue[0];
    var rest := r.queue[1..];
    var a := AdmitAt(apps, seats, r, k);
    HeldAfterAll(apps, seats, r, k, r2);
    forall t | 0 <= t < |apps|
      ensures StudentPlaced(apps, seats, r2, t)
    {
      assert StudentPlaced(apps, seats, r, t);
      if a.removed == Some(EntryOf(apps[t])) {
        EvictedKnown(apps, seats, r, k);
        NameIndex(apps, t);
        assert r2.queue == rest + [t];
      } else if t != i && t in r.queue {
        var q :| 0 <= q < |r.queue| && r.queue[q] == t;
        assert r2.queue[q - 1] == t;
      }
    }
  }

  lemma {:induction false} ProposalProposed(apps: seq<Applicant>, seats: seq<Seat>, r: Run, k: nat, r2: Run)
    requires Ctx(apps, seats, r, k, r2)
    ensures Proposed(apps, seats, r2)
  {
    var i := r.queue[0];
    forall t, j | 0 <= t < |apps| && 0 <= j < r2.cursors[t]
      ensures SchoolOf(apps, seats, t, j).Some?
    {
      if t != i || j != r.cursors[i] {
        assert j < r.cursors[t];
      }
    }
  }

  /** Every full-above fact of `r` still holds in `r2`. */
  lemma {:induction false} ProposalKeepsFull(apps: seq<Applicant>, seats: seq<Seat>, r: Run, k: nat, r2: Run, k2: nat, g: int)
    requires Ctx(apps, seats, r, k, r2) && k2 < |seats|
    requires FullAbove(r.rosters[k2], seats[k2].quota, g)
    ensures FullAbove(r2.rosters[k2], seats[k2].quota, g)
  {
    if k2 == k {
      AdmitKeepsFullAbove(r.rosters[k], seats[k].quota, EntryOf(apps[r.queue[0]]), g);
    }
  }

  /** A rejection that is new after the proposal is the one the school just made:
      its popped entry is the rejected student's, and the rejected choice is `k`. */
  lemma {:induction false} NewRejection(apps: seq<Applicant>, seats: seq<Seat>, r: Run, k: nat, r2: Run, t: nat, j: nat)
    requires Ctx(apps, seats, r, k, r2) && t < |apps|
    requires Rejected(apps, seats, r, t) <= j < Rejected(apps, seats, r2, t)
    ensures j < |apps[t].preferences| && SchoolOf(apps, seats, t, j) == Some(k)
    ensures AdmitAt(apps, seats, r, k).removed == Some(EntryOf(apps[t]))
  {
    if t == r.queue[0] {
      NotSeated(apps, seats, r, t);
      NewRejectionSelf(apps, seats, r, k, r2, j);
    } else {
      NewRejectionOther(apps, seats, r, k, r2, t, j);
    }
  }

  lemma {:induction false} NewRejectionSelf(apps: seq<Applicant>, seats: seq<Seat>, r: Run, k: nat, r2: Run, j: nat)
    requires Shaped(apps, seats, r) && r.queue != [] && Shaped(apps, seats, r2)
    requires Proposal(apps, seats, r, k, r2)
    requires EntryOf(apps[r.queue[0]]) !in r.rosters[k]
    requires HeldAt(apps, seats, r, r.queue[0]).None?
    requires Rejected(apps, seats, r, r.queue[0]) <= j < Rejected(apps, seats, r2, r.queue[0])
    ensures j < |apps[r.queue[0]].preferences| && SchoolOf(apps, seats, r.queue[0], j) == Some(k)
    ensures AdmitAt(apps, seats, r, k).removed == Some(EntryOf(apps[r.queue[0]]))
  {
    HeldAfterProposalSelf(apps, seats, r, k, r2);
  }

  lemma {:induction false} NewRejectionOther(apps: seq<Applicant>, seats: seq<Seat>, r: Run, k: nat, r2: Run, t: nat, j: nat)
    requires Ctx(apps, seats, r, k, r2) && t < |apps| && t != r.queue[0]
    requires Rejected(apps, seats, r, t) <= j < Rejected(apps, seats, r2, t)
    ensures j < |apps[t].preferences| && SchoolOf(apps, seats, t, j) == Some(k)
    ensures AdmitAt(apps, seats, r, k).removed == Some(EntryOf(apps[t]))
  {
    HeldAfterProposalOther(apps, seats, r, k, r2, t);
    EvictedKnown(apps, seats, r, k);
    NameIndex(apps, t);
  }

  lemma {:induction false} ProposalRejectedFull(apps: seq<Applicant>, seats: seq<Seat>, r: Run, k: nat, r2: Run)
    requires Ctx(apps, seats, r, k, r2)
    ensures Proposed(apps, seats, r2)
    ensures RejectedFull(apps, seats, r2)
  {
    var i := r.queue[0];
    ProposalProposed(apps, seats, r, k, r2);
    forall t, j | 0 <= t < |apps| && 0 <= j < Rejected(apps, seats, r2, t)
      ensures RejectionOk(apps, seats, r2, t, j)
    {
      if j < Rejected(apps, seats, r, t) {
        assert RejectionOk(apps, seats, r, t, j);
        ProposalKeepsFull(apps, seats, r, k, r2, SchoolOf(apps, seats, t, j).value, apps[t].gpa);
      } else {
        NewRejection(apps, seats, r, k, r2, t, j);
        AdmitPoppedFull(r.rosters[k], seats[k].quota, EntryOf(apps[i]));
      }
    }
  }

  /** An iteration in which the head of the queue proposes to a known school is a
      `Proposal`. */
  lemma {:induction false} StepIsProposal(apps: seq<Applicant>, seats: seq<Seat>, r: Run) returns (k: nat, r2: Run)
    requires Inv(apps, seats, r) && r.queue != []
    requires var i := r.queue[0];
      r.cursors[i] < |apps[i].preferences| && SchoolOf(apps, seats, i, r.cursors[i]).Some?
    ensures Step(apps, seats, r) == Next(r2) && Ctx(apps, seats, r, k, r2)
  {
    var i := r.queue[0];
    k := SchoolOf(apps, seats, i, r.cursors[i]).value;
    assert HeldAt(apps, seats, r, i).None?;
    if AdmitAt(apps, seats, r, k).removed.Some? {
      EvictedKnown(apps, seats, r, k);
    }
    r2 := StepEquation(apps, seats, r, k);
  }

  lemma {:induction false} StepEquation(apps: seq<Applicant>, seats: seq<Seat>, r: Run, k: nat) returns (r2: Run)
    requires Shaped(apps, seats, r) && r.queue != [] && k < |seats|
    requires var i := r.queue[0];
      r.cursors[i] < |apps[i].preferences| && SchoolOf(apps, seats, i, r.cursors[i]) == Some(k)
    requires AdmitAt(apps, seats, r, k).removed.Some? ==>
      IndexOf(Names(apps), AdmitAt(apps, seats, r, k).removed.value.name).Some?
    ensures Step(apps, seats, r) == Next(r2) && Shaped(apps, seats, r2) && Proposal(apps, seats, r, k, r2)
    ensures r2.cursors == r.cursors[r.queue[0] := r.cursors[r.queue[0]] + 1]
    ensures r2.rosters == r.rosters[k := AdmitAt(apps, seats, r, k).kept]
    ensures r2.queue == r.queue[1..] + Requeued(apps, seats, r, k)
  {
    var i := r.queue[0];
    r2 := Run(r.cursors[i := r.cursors[i] + 1], r.rosters[k := AdmitAt(apps, seats, r, k).kept],
              r.queue[1..] + Requeued(apps, seats, r, k));
    assert forall q :: 0 <= q < |r2.queue| ==> r2.queue[q] < |apps|;
  }

  /** The student school `k` would pop, were the head of the queue to propose to
      it, can be looked up by name. */
  ghost predicate PopFound(apps: seq<Applicant>, seats: seq<Seat>, r: Run, k: nat)
    requires Shaped(apps, seats, r) && r.queue != [] && k < |seats|
  {
    AdmitAt(apps, seats, r, k).removed.Some? ==>
      IndexOf(Names(apps), AdmitAt(apps, seats, r, k).removed.value.name).Some?
  }

  /** The school the head of the queue proposes to next, if it has a preference
      left and that preference names a school. */
  function Target(apps: seq<Applicant>, seats: seq<Seat>, r: Run): (k: Option<nat>)
    requires Shaped(apps, seats, r) && r.queue != []
    ensures k.Some? ==> k.value < |seats|
  {
    var i := r.queue[0];
    if r.cursors[i] < |apps[i].preferences| then SchoolOf(apps, seats, i, r.cursors[i]) else None
  }

  /** Under the invariant, whoever the target school pops is found by name. */
  lemma {:induction false} PopsFound(apps: seq<Applicant>, seats: seq<Seat>, r: Run)
    requires Inv(apps, seats, r) && r.queue != []
    ensures Target(apps, seats, r).Some? ==> PopFound(apps, seats, r, Target(apps, seats, r).value)
  {
    assert HeldAt(apps, seats, r, r.queue[0]).None?;
    if Target(apps, seats, r).Some? && AdmitAt(apps, seats, r, Target(apps, seats, r).value).removed.Some? {
      EvictedKnown(apps, seats, r, Target(apps, seats, r).value);
    }
  }

  /** Such an iteration keeps the invariant and uses up one proposal. */
  lemma {:induction false} StepProposalKeepsInv(apps: seq<Applicant>, seats: seq<Seat>, r: Run)
    requires Inv(apps, seats, r) && r.queue != []
    requires var i := r.queue[0];
      r.cursors[i] < |apps[i].preferences| && SchoolOf(apps, seats, i, r.cursors[i]).Some?
    ensures Step(apps, seats, r).Next?
    ensures Inv(apps, seats, Step(apps, seats, r).run)
    ensures Pending(apps, Step(apps, seats, r).run.cursors) == Pending(apps, r.cursors) - 1
  {
    var k, r2 := StepIsProposal(apps, seats, r);
    ProposalKeepsInv(apps, seats, r, k, r2);
    PendingAdvance(apps, r.cursors, r.queue[0]);
  }

  lemma {:induction false} ProposalKeepsInv(apps: seq<Applicant>, seats: seq<Seat>, r: Run, k: nat, r2: Run)
    requires Ctx(apps, seats, r, k, r2)
    ensures Inv(apps, seats, r2)
  {
    ProposalRostersOk(apps, seats, r, k, r2);
    ProposalEntriesHeld(apps, seats, r, k, r2);
    ProposalQueueOk(apps, seats, r, k, r2);
    ProposalPlaced(apps, seats, r, k, r2);
    ProposalRejectedFull(apps, seats, r, k, r2);
  }

  /** Every iteration from a state satisfying the invariant either raises `KeyError`
      for a preference that names no school, or keeps the invariant and decreases
      the measure; an unknown student name is never looked up. */
  lemma {:induction false} StepKeepsInv(apps: seq<Applicant>, seats: seq<Seat>, r: Run)
    requires Inv(apps, seats, r) && r.queue != []
    ensures Step(apps, seats, r).KeyError? ==>
      var i := r.queue[0];
      && r.cursors[i] < |apps[i].preferences|
      && Step(apps, seats, r).key == apps[i].preferences[r.cursors[i]]
      && Step(apps, seats, r).key !in SeatNames(seats)
    ensures Step(apps, seats, r).Next? ==>
      Inv(apps, seats, Step(apps, seats, r).run) && Decreases(apps, seats, r, Step(apps, seats, r).run)
  {
    var i := r.queue[0];
    if r.cursors[i] == |apps[i].preferences| {
      StepExhaustedKeepsInv(apps, seats, r);
    } else if SchoolOf(apps, seats, i, r.cursors[i]).Some? {
      StepProposalKeepsInv(apps, seats, r);
    }
  }

  // ---------------------------------------------------------------------------
  // Properties of single iterations.

  /** The queue is served first in, first out: an iteration drops the head, keeps the
      rest in order and appends at most one student at the tail. */
  lemma {:induction false} StepQueueFifo(apps: seq<Applicant>, seats: seq<Seat>, r: Run)
    requires Shaped(apps, seats, r) && r.queue != [] && Step(apps, seats, r).Next?
    ensures var q := Step(apps, seats, r).run.queue;
      |r.queue| - 1 <= |q| <= |r.queue| && q[..|r.queue| - 1] == r.queue[1..]
  {
  }

  /** A student that is neither queued nor seated never comes back: it has used up
      its list for good. */
  lemma {:induction false} ExhaustedStaysOut(apps: seq<Applicant>, seats: seq<Seat>, r: Run, t: nat)
    requires Inv(apps, seats, r) && r.queue != [] && Step(apps, seats, r).Next?
    requires t < |apps| && t !in r.queue && HeldAt(apps, seats, r, t).None?
    ensures Shaped(apps, seats, Step(apps, seats, r).run)
    ensures var r2 := Step(apps, seats, r).run;
      t !in r2.queue && HeldAt(apps, seats, r2, t).None? && r2.cursors[t] == |apps[t].preferences|
  {
    StepKeepsInv(apps, seats, r);
    assert StudentPlaced(apps, seats, r, t);
    var i := r.queue[0];
    if r.cursors[i] == |apps[i].preferences| {
      SameSeats(apps, seats, r, Step(apps, seats, r).run);
    } else {
      var k, r2 := StepIsProposal(apps, seats, r);
      HeldAfterProposalOther(apps, seats, r, k, r2, t);
      if AdmitAt(apps, seats, r, k).removed.Some? {
        EvictedKnown(apps, seats, r, k);
        var o := IndexOf(Names(apps), AdmitAt(apps, seats, r, k).removed.value.name).value;
        assert r2.queue == r.queue[1..] + [o];
        assert o != t;
      }
    }
  }

  // ---------------------------------------------------------------------------
  // The final state.

  /** The names on a roster, in roster order: what the result lists per school. */
  function RosterNames(roster: seq<Entry>): (r: seq<string>)
    ensures |r| == |roster| && forall p :: 0 <= p < |roster| ==> r[p] == roster[p].name
  {
    seq(|roster|, p requires 0 <= p < |roster| => roster[p].name)
  }

  /** The school, by position, whose roster lists `n`; the last one when several do,
      as the result loop overwrites earlier assignments. */
  function Holder(rosters: seq<seq<Entry>>, n: string): (k: Option<nat>)
    ensures k.Some? ==> k.value < |rosters| && n in RosterNames(rosters[k.value])
    ensures k.Some? ==> forall k2 :: k.value < k2 < |rosters| ==> n !in RosterNames(rosters[k2])
    ensures k.None? ==> forall k2 :: 0 <= k2 < |rosters| ==> n !in RosterNames(rosters[k2])
  {
    if rosters == [] then None
    else if n in RosterNames(rosters[|rosters| - 1]) then Some(|rosters| - 1)
    else Holder(rosters[..|rosters| - 1], n)
  }

  /** The school name the result assigns to student name `n`, if any. */
  function AssignedTo(seats: seq<Seat>, rosters: seq<seq<Entry>>, n: string): (s: Option<string>)
    requires |rosters| == |seats|
    ensures s.Some? <==> exists k :: 0 <= k < |seats| && n in RosterNames(rosters[k])
  {
    match Holder(rosters, n)
    case None => None
    case Some(k) => Some(seats[k].name)
  }

  /** Student `a` ranks its `j`-th choice above its assignment (any choice ranks above
      no assignment at all). */
  predicate PrefersChoice(a: Applicant, j: nat, current: Option<string>)
    requires j < |a.preferences|
  {
    current.None? || current.value !in a.preferences[..j + 1]
  }

  /** Weak stability (no justified envy, no wasted seat): every school a student
      ranks above its assignment is a known school, full, and holds nobody with a
      lower GPA than the student. */
  ghost predicate WeaklyStable(apps: seq<Applicant>, seats: seq<Seat>, rosters: seq<seq<Entry>>)
    requires |rosters| == |seats|
  {
    forall i, j ::
      (0 <= i < |apps| && 0 <= j < |apps[i].preferences| &&
       PrefersChoice(apps[i], j, AssignedTo(seats, rosters, apps[i].name))) ==>
        match IndexOf(SeatNames(seats), apps[i].preferences[j])
        case None => false
        case Some(k) => FullAbove(rosters[k], seats[k].quota, apps[i].gpa)
  }

  /** The result's view of who holds a seat agrees with `HeldAt`. */
  lemma {:induction false} HolderIsHeld(apps: seq<Applicant>, seats: seq<Seat>, r: Run, i: nat)
    requires Inv(apps, seats, r) && i < |apps|
    ensures Holder(r.rosters, apps[i].name) == HeldAt(apps, seats, r, i)
  {
    var n := apps[i].name;
    NameIndex(apps, i);
    forall k | 0 <= k < |seats| && n in RosterNames(r.rosters[k])
      ensures HeldAt(apps, seats, r, i) == Some(k)
    {
      var p :| 0 <= p < |r.rosters[k]| && RosterNames(r.rosters[k])[p] == n;
      assert OccupantOk(apps, seats, r, k, p);
    }
    match HeldAt(apps, seats, r, i)
    case None =>
    case Some(k) =>
      var p :| 0 <= p < |r.rosters[k]| && r.rosters[k][p] == EntryOf(apps[i]);
      assert RosterNames(r.rosters[k])[p] == n;
  }

  /** Every name on a roster is a student's name. */
  lemma {:induction false} RosterNamesKnown(apps: seq<Applicant>, seats: seq<Seat>, r: Run, k: nat, p: nat)
    requires Inv(apps, seats, r) && k < |seats| && p < |r.rosters[k]|
    ensures r.rosters[k][p].name in Names(apps)
  {
    assert OccupantOk(apps, seats, r, k, p);
  }

  /** When the queue runs empty, every student holds a seat at the school of its
      latest proposal or has proposed to every school on its list. */
  lemma {:induction false} FinalPlacement(apps: seq<Applicant>, seats: seq<Seat>, r: Run, i: nat)
    requires Inv(apps, seats, r) && r.queue == [] && i < |apps|
    ensures match Holder(r.rosters, apps[i].name)
      case None => r.cursors[i] == |apps[i].preferences|
      case Some(k) =>
        0 < r.cursors[i] && seats[k].name == apps[i].preferences[r.cursors[i] - 1]
  {
    HolderIsHeld(apps, seats, r, i);
    assert StudentPlaced(apps, seats, r, i);
  }

  /** No name is on the rosters of two schools. */
  ghost predicate OnOneRoster(rosters: seq<seq<Entry>>)
  {
    forall k1, k2, n ::
      (0 <= k1 < |rosters| && 0 <= k2 < |rosters| && n in RosterNames(rosters[k1]) && n in RosterNames(rosters[k2]))
        ==> k1 == k2
  }

  /** Every student sits on at most one roster throughout the run. */
  lemma {:induction false} RostersApart(apps: seq<Applicant>, seats: seq<Seat>, r: Run)
    requires Inv(apps, seats, r)
    ensures OnOneRoster(r.rosters)
  {
    forall k1, k2, n | 0 <= k1 < |r.rosters| && 0 <= k2 < |r.rosters|
      && n in RosterNames(r.rosters[k1]) && n in RosterNames(r.rosters[k2])
      ensures k1 == k2
    {
      var p1 :| 0 <= p1 < |r.rosters[k1]| && RosterNames(r.rosters[k1])[p1] == n;
      var p2 :| 0 <= p2 < |r.rosters[k2]| && RosterNames(r.rosters[k2])[p2] == n;
      assert OccupantOk(apps, seats, r, k1, p1);
      assert OccupantOk(apps, seats, r, k2, p2);
    }
  }

  /** When the queue runs empty, the rosters form a weakly stable matching. */
  lemma {:induction false} FinalStable(apps: seq<Applicant>, seats: seq<Seat>, r: Run)
    requires Inv(apps, seats, r) && r.queue == []
    ensures WeaklyStable(apps, seats, r.rosters)
  {
    forall i, j | 0 <= i < |apps| && 0 <= j < |apps[i].preferences| &&
      PrefersChoice(apps[i], j, AssignedTo(seats, r.rosters, apps[i].name))
      ensures match IndexOf(SeatNames(seats), apps[i].preferences[j])
        case None => false
        case Some(k) => FullAbove(r.rosters[k], seats[k].quota, apps[i].gpa)
    {
      FinalPlacement(apps, seats, r, i);
      HolderIsHeld(apps, seats, r, i);
      var c := r.cursors[i];
      if Holder(r.rosters, apps[i].name).Some? {
        var prefix := apps[i].preferences[..j + 1];
        if j >= c - 1 {
          assert prefix[c - 1] == apps[i].preferences[c - 1];
        }
      }
      assert j < Rejected(apps, seats, r, i);
      assert RejectionOk(apps, seats, r, i, j);
    }
  }

  // ---------------------------------------------------------------------------
  // The result maps.

  /** The names listed on any of the rosters. */
  function ListedNames(rosters: seq<seq<Entry>>): set<string>
  {
    set k, p | 0 <= k < |rosters| && 0 <= p < |rosters[k]| :: rosters[k][p].name
  }

  /** Student name to school name (or none): every student starts unassigned and
      every listed name is assigned the (last) school listing it. */
  function Assignments(names: seq<string>, seats: seq<Seat>, rosters: seq<seq<Entry>>): (m: map<string, Option<string>>)
    requires |rosters| <= |seats|
    ensures m.Keys == (set n | n in names) + ListedNames(rosters)
  {
    map n | n in (set n | n in names) + ListedNames(rosters) ::
      match Holder(rosters, n)
      case None => None
      case Some(k) => Some(seats[k].name)
  }

  /** Listing one more name on the last roster assigns that name to its school. */
  lemma {:induction false} AssignmentsAppend(names: seq<string>, seats: seq<Seat>, rs: seq<seq<Entry>>, t: seq<Entry>, x: Entry)
    requires |rs| < |seats|
    ensures Assignments(names, seats, rs + [t + [x]])
         == Assignments(names, seats, rs + [t])[x.name := Some(seats[|rs|].name)]
  {
    var before, after := rs + [t], rs + [t + [x]];
    assert RosterNames(t + [x]) == RosterNames(t) + [x.name];
    assert after[..|rs|] == rs && before[..|rs|] == rs;
    assert ListedNames(after) == ListedNames(before) + {x.name} by {
      assert after[|rs|][|t|] == x;
      forall n | n in ListedNames(after) ensures n in ListedNames(before) + {x.name} {
        var k, p :| 0 <= k < |after| && 0 <= p < |after[k]| && after[k][p].name == n;
        if k < |rs| || p < |t| {
          assert before[k][p] == after[k][p];
        }
      }
      forall n | n in ListedNames(before) ensures n in ListedNames(after) {
        var k, p :| 0 <= k < |before| && 0 <= p < |before[k]| && before[k][p].name == n;
        assert after[k][p] == before[k][p];
      }
    }
  }

  /** Under the invariant the assignment map has exactly the students' names as keys
      and gives each one the school it holds a seat at. */
  lemma {:induction false} AssignmentsFinal(apps: seq<Applicant>, seats: seq<Seat>, r: Run)
    requires Inv(apps, seats, r)
    ensures Assignments(Names(apps), seats, r.rosters).Keys == set n | n in Names(apps)
    ensures forall i :: 0 <= i < |apps| ==>
      Assignments(Names(apps), seats, r.rosters)[apps[i].name] == AssignedTo(seats, r.rosters, apps[i].name)
  {
    forall n | n in ListedNames(r.rosters) ensures n in Names(apps) {
      var k, p :| 0 <= k < |r.rosters| && 0 <= p < |r.rosters[k]| && r.rosters[k][p].name == n;
      RosterNamesKnown(apps, seats, r, k, p);
    }
  }

  /** Before any roster is read, every student name is unassigned. */
  lemma {:induction false} AssignmentsNone(names: seq<string>, seats: seq<Seat>)
    ensures Assignments(names, seats, []) == map n | n in names :: None
  {
    assert ListedNames([]) == {};
  }

  /** An empty roster at the end changes no assignment. */
  lemma {:induction false} AssignmentsEmptyLast(names: seq<string>, seats: seq<Seat>, rs: seq<seq<Entry>>)
    requires |rs| < |seats|
    ensures Assignments(names, seats, rs + [[]]) == Assignments(names, seats, rs)
  {
    var after := rs + [[]];
    assert after[..|rs|] == rs;
    assert ListedNames(after) == ListedNames(rs) by {
      forall n | n in ListedNames(after) ensures n in ListedNames(rs) {
        var k, p :| 0 <= k < |after| && 0 <= p < |after[k]| && after[k][p].name == n;
        assert after[k] == rs[k];
      }
      forall n | n in ListedNames(rs) ensures n in ListedNames(after) {
        var k, p :| 0 <= k < |rs| && 0 <= p < |rs[k]| && rs[k][p].name == n;
        assert after[k] == rs[k];
      }
    }
  }

  /** The list the result gives school name `n`: the names on the roster of the
      school called `n` when there is one among the first `|rs|`, else empty. */
  function ListOf(seats: seq<Seat>, rs: seq<seq<Entry>>, n: string): seq<string>
  {
    match IndexOf(SeatNames(seats), n)
    case Some(k) => if k < |rs| then RosterNames(rs[k]) else []
    case None => []
  }

  /** School name to the names on its roster, for the first `|rs|` schools; the
      others have empty lists. */
  function Enrolled(seats: seq<Seat>, rs: seq<seq<Entry>>): (m: map<string, seq<string>>)
    ensures m.Keys == set n | n in SeatNames(seats)
  {
    map n | n in SeatNames(seats) :: ListOf(seats, rs, n)
  }

  /** The list of school `k`. */
  lemma {:induction false} EnrolledValue(seats: seq<Seat>, rs: seq<seq<Entry>>, k: nat)
    requires Distinct(SeatNames(seats)) && k < |seats|
    ensures Enrolled(seats, rs)[seats[k].name] == if k < |rs| then RosterNames(rs[k]) else []
  {
    IndexOfDistinct(SeatNames(seats), k);
  }

  /** Each school's list is its roster's names in order. */
  lemma {:induction false} EnrolledAt(seats: seq<Seat>, rs: seq<seq<Entry>>, k: nat)
    requires |rs| == |seats| && Distinct(SeatNames(seats)) && k < |seats|
    ensures Enrolled(seats, rs)[seats[k].name] == RosterNames(rs[k])
  {
    EnrolledValue(seats, rs, k);
  }

  /** Listing one more name on the last roster appends it to that school's list. */
  lemma {:induction false} EnrolledAppend(seats: seq<Seat>, rs: seq<seq<Entry>>, t: seq<Entry>, x: Entry)
    requires |rs| < |seats| && Distinct(SeatNames(seats))
    ensures Enrolled(seats, rs + [t + [x]])
        == Enrolled(seats, rs + [t])[seats[|rs|].name := Enrolled(seats, rs + [t])[seats[|rs|].name] + [x.name]]
  {
    var before, after := rs + [t], rs + [t + [x]];
    var n := seats[|rs|].name;
    IndexOfDistinct(SeatNames(seats), |rs|);
    assert RosterNames(t + [x]) == RosterNames(t) + [x.name];
    forall n2 | n2 in SeatNames(seats) && n2 != n
      ensures ListOf(seats, after, n2) == ListOf(seats, before, n2)
    {
      match IndexOf(SeatNames(seats), n2)
      case None =>
      case Some(k) =>
        if k < |rs| {
          assert before[k] == after[k];
        }
    }
  }

  /** Before any roster is read, every school's list is empty. */
  lemma {:induction false} EnrolledNone(seats: seq<Seat>)
    ensures Enrolled(seats, []) == map n | n in SeatNames(seats) :: []
  {
  }

  /** An empty roster at the end changes no list. */
  lemma {:induction false} EnrolledEmptyLast(seats: seq<Seat>, rs: seq<seq<Entry>>)
    ensures Enrolled(seats, rs + [[]]) == Enrolled(seats, rs)
  {
    forall n | n in SeatNames(seats) ensures ListOf(seats, rs + [[]], n) == ListOf(seats, rs, n) {
      match IndexOf(SeatNames(seats), n)
      case None =>
      case Some(k) =>
        if k < |rs| {
          assert (rs + [[]])[k] == rs[k];
        }
    }
  }
}
