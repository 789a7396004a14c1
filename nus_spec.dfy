/**
 * The programme-level student-exchange matcher (`utils/sep_nus.py`) as a pure state
 * machine.
 *
 * A school offers several programmes, each with its own eligibility rules and quota.
 * A student proposing to a school is considered by that school's programmes in
 * dictionary order until one keeps it (or keeps it and turns someone else away); a
 * programme the student is not eligible for, or that turns the student itself away
 * because it is full, passes it on to the next programme of the same school.  Every
 * proposal and every rejection is appended to an audit log.
 *
 * Between two iterations of the outer loop the whole state is the students' proposal
 * cursors, the programmes' rosters, the FIFO queue and the log.  `Step` is one
 * iteration; the lemmas show that it keeps `Inv`, that it decreases a measure, and what
 * the final state says about the result maps.
 */
module NusSpec {
  import opened Base
  import opened Roster
  import SepSpec

  /** One preference: a school name and the semester the student asks for. */
  datatype Choice = Choice(school: string, semester: string)

  /** What the matcher reads from a student. */
  datatype Applicant = Applicant(name: string, gpa: int, score: int, major: string,
    seniority: string, nationality: string, preferences: seq<Choice>)

  /** What the matcher reads from a programme: its school, its eligibility rules and its
      quota.  A rule that is `None` is a cell pandas reads as missing; an empty list is a
      blank list cell. */
  datatype Terms = Terms(school: string, semester: Option<string>, majorsIn: seq<string>,
    majorsOut: seq<string>, quota: nat, minGpa: Option<int>, seniority: Option<string>,
    nationalitiesOut: seq<string>)

  /** A programme under its ID, the key of the programme dictionary. */
  datatype Listing = Listing(id: string, terms: Terms)

  /** Why a programme turns an entry away.  The source writes these as messages:
      "semester requirement not met", "major requirement not met" (for the list of
      admitted majors and for the list of excluded ones alike), "minimum GPA <g> not met",
      "seniority requirement not met", "nationality requirement not met", and "maximum
      quota <q> reached" followed by the entries kept. */
  datatype Reason =
    | SemesterNotMet
    | MajorNotMet
    | MinGpaNotMet(minGpa: int)
    | SeniorityNotMet
    | NationalityNotMet
    | QuotaReached(quota: nat, accepted: seq<Entry>)

  /** The semester a student may ask for to pass every programme's semester rule. */
  const AnySemester: string := "Any available semester"

  // ---------------------------------------------------------------------------
  // Eligibility.

  predicate SemesterOk(t: Terms, wanted: string)
  {
    t.semester.None? || wanted == AnySemester || wanted == t.semester.value
  }

  predicate MajorInOk(t: Terms, a: Applicant)
  {
    t.majorsIn == [] || a.major in t.majorsIn
  }

  predicate MajorOutOk(t: Terms, a: Applicant)
  {
    !(t.majorsOut != [] && a.major in t.majorsOut)
  }

  predicate GpaOk(t: Terms, a: Applicant)
  {
    t.minGpa.None? || a.gpa >= t.minGpa.value
  }

  predicate SeniorityOk(t: Terms, a: Applicant)
  {
    t.seniority.None? || a.seniority == t.seniority.value
  }

  predicate NationalityOk(t: Terms, a: Applicant)
  {
    !(t.nationalitiesOut != [] && a.nationality in t.nationalitiesOut)
  }

  /** Student `a`, asking for semester `wanted`, meets every rule of the programme. */
  predicate Eligible(t: Terms, a: Applicant, wanted: string)
  {
    SemesterOk(t, wanted) && MajorInOk(t, a) && MajorOutOk(t, a) && GpaOk(t, a)
    && SeniorityOk(t, a) && NationalityOk(t, a)
  }

  /** The first rule the student fails, checked in the order semester, admitted majors,
      excluded majors, minimum GPA, seniority, nationality; none when it is eligible. */
  function Ineligible(t: Terms, a: Applicant, wanted: string): (r: Option<Reason>)
    ensures r.None? <==> Eligible(t, a, wanted)
    ensures r.Some? ==> !r.value.QuotaReached?
  {
    if !SemesterOk(t, wanted) then Some(SemesterNotMet)
    else if !MajorInOk(t, a) then Some(MajorNotMet)
    else if !MajorOutOk(t, a) then Some(MajorNotMet)
    else if !GpaOk(t, a) then Some(MinGpaNotMet(t.minGpa.value))
    else if !SeniorityOk(t, a) then Some(SeniorityNotMet)
    else if !NationalityOk(t, a) then Some(NationalityNotMet)
    else None
  }

  /** Each reason is given exactly when every earlier rule holds and its own rule fails;
      the minimum GPA reported is the programme's. */
  lemma {:induction false} FirstFailedRule(t: Terms, a: Applicant, wanted: string)
    ensures Ineligible(t, a, wanted) == Some(SemesterNotMet) <==> !SemesterOk(t, wanted)
    ensures Ineligible(t, a, wanted) == Some(MajorNotMet) <==>
      SemesterOk(t, wanted) && !(MajorInOk(t, a) && MajorOutOk(t, a))
    ensures (Ineligible(t, a, wanted).Some? && Ineligible(t, a, wanted).value.MinGpaNotMet?) <==>
      SemesterOk(t, wanted) && MajorInOk(t, a) && MajorOutOk(t, a) && !GpaOk(t, a)
    ensures Ineligible(t, a, wanted).Some? && Ineligible(t, a, wanted).value.MinGpaNotMet? ==>
      t.minGpa == Some(Ineligible(t, a, wanted).value.minGpa) && a.gpa < Ineligible(t, a, wanted).value.minGpa
    ensures Ineligible(t, a, wanted) == Some(SeniorityNotMet) <==>
      SemesterOk(t, wanted) && MajorInOk(t, a) && MajorOutOk(t, a) && GpaOk(t, a) && !SeniorityOk(t, a)
    ensures Ineligible(t, a, wanted) == Some(NationalityNotMet) <==>
      SemesterOk(t, wanted) && MajorInOk(t, a) && MajorOutOk(t, a) && GpaOk(t, a) && SeniorityOk(t, a)
      && !NationalityOk(t, a)
  {
  }

  /** The `(total score, name)` tuple a student occupies a place with. */
  function EntryOf(a: Applicant): Entry
  {
    Entry(a.score, a.name)
  }

  /** What `consider` gives: the roster afterwards, the entry it hands back, and why. */
  datatype Verdict = Verdict(roster: seq<Entry>, removed: Option<Entry>, reason: Option<Reason>)

  /** A programme considers student `a`, who asks for semester `wanted`: an ineligible
      student is handed back with the first failed rule and the roster is untouched; an
      eligible one is admitted by append-sort-pop, and whoever is popped is handed back
      with the quota and the entries kept. */
  function Consider(t: Terms, roster: seq<Entry>, a: Applicant, wanted: string): (v: Verdict)
    ensures !Eligible(t, a, wanted) ==>
      v == Verdict(roster, Some(EntryOf(a)), Ineligible(t, a, wanted))
    ensures Eligible(t, a, wanted) ==>
      Admission(v.roster, v.removed) == Admit(roster, t.quota, EntryOf(a))
    ensures v.removed.None? <==> Eligible(t, a, wanted) && |roster| < t.quota
    ensures v.removed.Some? <==> v.reason.Some?
    ensures v.reason.Some? && v.reason.value.QuotaReached? ==>
      Eligible(t, a, wanted) && v.reason.value == QuotaReached(t.quota, v.roster)
  {
    match Ineligible(t, a, wanted)
    case Some(why) => Verdict(roster, Some(EntryOf(a)), Some(why))
    case None =>
      var adm := Admit(roster, t.quota, EntryOf(a));
      AdmitContract(roster, t.quota, EntryOf(a));
      match adm.removed
      case None => Verdict(adm.kept, None, None)
      case Some(x) => Verdict(adm.kept, Some(x), Some(QuotaReached(t.quota, adm.kept)))
  }

  /** An eligible student is placed by the rules of `Admit`: the roster stays sorted best
      first and within its quota, and the entry popped has the lowest total score, the
      newest of those tied with it losing. */
  lemma {:induction false} ConsiderEligible(t: Terms, roster: seq<Entry>, a: Applicant, wanted: string)
    requires Eligible(t, a, wanted) && |roster| <= t.quota
    ensures var v := Consider(t, roster, a, wanted);
      && SortedDesc(v.roster) && |v.roster| <= t.quota
      && multiset(v.roster) + AsMultiset(v.removed) == multiset(roster) + multiset{EntryOf(a)}
      && (v.removed.Some? ==>
            && (forall y | y in roster + [EntryOf(a)] :: v.removed.value.key <= y.key)
            && var tied := WithKey(roster + [EntryOf(a)], v.removed.value.key);
               tied != [] && tied[|tied| - 1] == v.removed.value)
  {
    AdmitContract(roster, t.quota, EntryOf(a));
    if Admit(roster, t.quota, EntryOf(a)).removed.Some? {
      AdmitEvictsNewestMinimum(roster, t.quota, EntryOf(a));
    }
  }

  // ---------------------------------------------------------------------------
  // The loop state and one iteration.

  datatype Action = ProposedTo | RejectedBy

  /** One row of the matching-process table: student name, total score, action, choice
      number (proposals only), school (with the programme ID for rejections) and reason
      (rejections only). */
  datatype Event = Event(student: string, score: int, action: Action, choice: Option<nat>,
    school: string, reason: Option<Reason>)

  /** The row logged when a student proposes: `choice` counts from 1. */
  function Proposal(a: Applicant, choice: nat): Event
    requires 1 <= choice <= |a.preferences|
  {
    Event(a.name, a.score, ProposedTo, Some(choice), a.preferences[choice - 1].school, None)
  }

  /** The row logged when programme `id` of `school` hands back entry `x`. */
  function Rejection(x: Entry, school: string, id: string, why: Option<Reason>): Event
  {
    Event(x.name, x.key, RejectedBy, None, school + " ProgramID: " + id, why)
  }

  /** What the loop over one school's programmes leaves: the rosters, the rows logged,
      whether the student was accepted, and the other student turned away, if any. */
  datatype Tried = Tried(rosters: seq<seq<Entry>>, events: seq<Event>, accepted: bool,
    displaced: Option<Entry>)

  /** The loop over the programmes from position `j` on: a programme of another school is
      skipped; one that keeps the student without popping anyone stops the loop; one that
      pops another student logs it and stops; one that hands back the proposer (ineligible,
      or lowest when full) logs it and goes on. */
  function TryFrom(progs: seq<Listing>, rosters: seq<seq<Entry>>, a: Applicant, wanted: string,
    school: string, j: nat): (t: Tried)
    requires |rosters| == |progs| && j <= |progs|
    ensures |t.rosters| == |progs|
    decreases |progs| - j
  {
    if j == |progs| then Tried(rosters, [], false, None)
    else if progs[j].terms.school != school then TryFrom(progs, rosters, a, wanted, school, j + 1)
    else
      var v := Consider(progs[j].terms, rosters[j], a, wanted);
      var rs := rosters[j := v.roster];
      match v.removed
      case None => Tried(rs, [], true, None)
      case Some(x) =>
        var ev := Rejection(x, school, progs[j].id, v.reason);
        if x.name != a.name then Tried(rs, [ev], true, Some(x))
        else
          var rest := TryFrom(progs, rs, a, wanted, school, j + 1);
          Tried(rest.rosters, [ev] + rest.events, rest.accepted, rest.displaced)
  }

  /** The loop state: cursors and queue entries index the student list, rosters follow the
      programme list, and the log holds every row so far. */
  datatype Run = Run(cursors: seq<nat>, rosters: seq<seq<Entry>>, queue: seq<nat>, log: seq<Event>)

  /** One iteration either yields the next state or raises `KeyError(key)`. */
  datatype Outcome = Next(run: Run) | KeyError(key: string)

  function Names(apps: seq<Applicant>): (r: seq<string>)
    ensures |r| == |apps| && forall i :: 0 <= i < |apps| ==> r[i] == apps[i].name
  {
    seq(|apps|, i requires 0 <= i < |apps| => apps[i].name)
  }

  function Ids(progs: seq<Listing>): (r: seq<string>)
    ensures |r| == |progs| && forall p :: 0 <= p < |progs| ==> r[p] == progs[p].id
  {
    seq(|progs|, p requires 0 <= p < |progs| => progs[p].id)
  }

  /** The two dictionaries of the source are keyed by student name and programme ID. */
  predicate WellFormed(apps: seq<Applicant>, progs: seq<Listing>)
  {
    Distinct(Names(apps)) && Distinct(Ids(progs))
  }

  /** The state before the first iteration: nothing proposed, nobody admitted, every
      student queued in input order, nothing logged. */
  function Start(apps: seq<Applicant>, progs: seq<Listing>): Run
  {
    Run(seq(|apps|, _ => 0), seq(|progs|, _ => []), seq(|apps|, i => i), [])
  }

  predicate Shaped(apps: seq<Applicant>, progs: seq<Listing>, r: Run)
  {
    && |r.cursors| == |apps|
    && |r.rosters| == |progs|
    && (forall i :: 0 <= i < |apps| ==> r.cursors[i] <= |apps[i].preferences|)
    && (forall q :: 0 <= q < |r.queue| ==> r.queue[q] < |apps|)
  }

  /** What the head of the queue does with its next choice, if it has one left. */
  function Attempt(apps: seq<Applicant>, progs: seq<Listing>, r: Run): (t: Option<Tried>)
    requires Shaped(apps, progs, r) && r.queue != []
  {
    var i := r.queue[0];
    var c := r.cursors[i];
    if c == |apps[i].preferences| then None
    else
      var choice := apps[i].preferences[c];
      Some(TryFrom(progs, r.rosters, apps[i], choice.semester, choice.school, 0))
  }

  /** One iteration of the loop: pop the head of the queue; if it has a choice left,
      advance its cursor, log the proposal, and let the school's programmes consider it;
      re-queue the student turned away, or the proposer when no programme kept it. */
  function Step(apps: seq<Applicant>, progs: seq<Listing>, r: Run): Outcome
    requires Shaped(apps, progs, r) && r.queue != []
  {
    var i := r.queue[0];
    var rest := r.queue[1..];
    var c := r.cursors[i];
    if c == |apps[i].preferences| then
      Next(Run(r.cursors, r.rosters, rest, r.log))
    else
      var choice := apps[i].preferences[c];
      var t := TryFrom(progs, r.rosters, apps[i], choice.semester, choice.school, 0);
      var cursors := r.cursors[i := c + 1];
      var log := r.log + [Proposal(apps[i], c + 1)] + t.events;
      if !t.accepted then Next(Run(cursors, t.rosters, rest + [i], log))
      else match t.displaced
        case None => Next(Run(cursors, t.rosters, rest, log))
        case Some(x) =>
          match IndexOf(Names(apps), x.name)
          case None => KeyError(x.name)
          case Some(o) => Next(Run(cursors, t.rosters, rest + [o], log))
  }

  // ---------------------------------------------------------------------------
  // All rosters together.

  /** Every entry held by any programme, counted with multiplicity. */
  function Pool(rs: seq<seq<Entry>>): multiset<Entry>
  {
    if rs == [] then multiset{} else Pool(rs[..|rs| - 1]) + multiset(rs[|rs| - 1])
  }

  /** Replacing one roster changes the pool by exactly the entries swapped, counted
      entry by entry. */
  lemma {:induction false} PoolUpdate(rs: seq<seq<Entry>>, j: nat, t: seq<Entry>, x: Entry)
    requires j < |rs|
    ensures Pool(rs[j := t])[x] + multiset(rs[j])[x] == Pool(rs)[x] + multiset(t)[x]
  {
    var n := |rs| - 1;
    var rs2 := rs[j := t];
    if j == n {
      assert rs2[..n] == rs[..n];
    } else {
      assert rs2[..n] == rs[..n][j := t];
      PoolUpdate(rs[..n], j, t, x);
    }
  }

  lemma {:induction false} PoolSame(rs: seq<seq<Entry>>, rs2: seq<seq<Entry>>)
    requires |rs| == |rs2| && forall p :: 0 <= p < |rs| ==> multiset(rs[p]) == multiset(rs2[p])
    ensures Pool(rs) == Pool(rs2)
  {
    if rs != [] {
      var n := |rs| - 1;
      PoolSame(rs[..n], rs2[..n]);
    }
  }

  lemma {:induction false} PoolHas(rs: seq<seq<Entry>>, p: nat, x: Entry)
    requires p < |rs|
    ensures Pool(rs)[x] >= multiset(rs[p])[x]
  {
    var n := |rs| - 1;
    if p < n {
      PoolHas(rs[..n], p, x);
    }
  }

  lemma {:induction false} PoolTwice(rs: seq<seq<Entry>>, p1: nat, p2: nat, x: Entry)
    requires p1 < p2 < |rs| && x in rs[p1] && x in rs[p2]
    ensures Pool(rs)[x] >= 2
  {
    var n := |rs| - 1;
    if p2 < n {
      PoolTwice(rs[..n], p1, p2, x);
    } else {
      PoolHas(rs[..n], p1, x);
    }
  }

  lemma {:induction false} PoolFind(rs: seq<seq<Entry>>, x: Entry) returns (p: nat)
    requires x in Pool(rs)
    ensures p < |rs| && x in rs[p]
  {
    var n := |rs| - 1;
    if x in rs[n] {
      p := n;
    } else {
      p := PoolFind(rs[..n], x);
    }
  }

  // ---------------------------------------------------------------------------
  // The invariant.

  /** Programme `p`'s roster is sorted best first and within its quota. */
  ghost predicate RosterOk(progs: seq<Listing>, rosters: seq<seq<Entry>>, p: nat)
    requires p < |progs| == |rosters|
  {
    SortedDesc(rosters[p]) && |rosters[p]| <= progs[p].terms.quota
  }

  /** Entry `x` is the entry of the student its name belongs to. */
  predicate Known(apps: seq<Applicant>, x: Entry)
  {
    match IndexOf(Names(apps), x.name)
    case None => false
    case Some(o) => x == EntryOf(apps[o])
  }

  /** Every held entry is a student's and is held once, by one programme. */
  ghost predicate PoolOk(apps: seq<Applicant>, pool: multiset<Entry>)
  {
    forall x :: x in pool ==> pool[x] == 1 && Known(apps, x)
  }

  /** Nobody is queued twice, and nobody queued holds a place. */
  ghost predicate QueueOk(apps: seq<Applicant>, pool: multiset<Entry>, queue: seq<nat>)
    requires forall q :: 0 <= q < |queue| ==> queue[q] < |apps|
  {
    Distinct(queue) && forall q :: 0 <= q < |queue| ==> EntryOf(apps[queue[q]]) !in pool
  }

  /** Student `t` is queued, holds a place, or has proposed to every choice. */
  ghost predicate StudentPlaced(apps: seq<Applicant>, r: Run, pool: multiset<Entry>, t: nat)
    requires |r.cursors| == |apps| && t < |apps|
  {
    t in r.queue || EntryOf(apps[t]) in pool || r.cursors[t] == |apps[t].preferences|
  }

  ghost predicate Placed(apps: seq<Applicant>, r: Run, pool: multiset<Entry>)
    requires |r.cursors| == |apps|
  {
    forall t :: 0 <= t < |apps| ==> StudentPlaced(apps, r, pool, t)
  }

  /** A proposal row carries a choice number from 1 and no reason; a rejection row
      carries a reason and no choice number. */
  predicate EventOk(e: Event)
  {
    match e.action
    case ProposedTo => e.choice.Some? && e.choice.value >= 1 && e.reason.None?
    case RejectedBy => e.choice.None? && e.reason.Some?
  }

  ghost predicate LogOk(log: seq<Event>)
  {
    forall q :: 0 <= q < |log| ==> EventOk(log[q])
  }

  ghost predicate Inv(apps: seq<Applicant>, progs: seq<Listing>, r: Run)
  {
    && WellFormed(apps, progs)
    && Shaped(apps, progs, r)
    && (forall p :: 0 <= p < |progs| ==> RosterOk(progs, r.rosters, p))
    && PoolOk(apps, Pool(r.rosters))
    && QueueOk(apps, Pool(r.rosters), r.queue)
    && Placed(apps, r, Pool(r.rosters))
    && LogOk(r.log)
  }

  lemma {:induction false} NameIndex(apps: seq<Applicant>, t: nat)
    requires Distinct(Names(apps)) && t < |apps|
    ensures IndexOf(Names(apps), apps[t].name) == Some(t)
  {
    IndexOfDistinct(Names(apps), t);
  }

  /** Distinct students have distinct entries. */
  lemma {:induction false} EntryInjective(apps: seq<Applicant>, t: nat, u: nat)
    requires Distinct(Names(apps)) && t < |apps| && u < |apps| && t != u
    ensures EntryOf(apps[t]) != EntryOf(apps[u])
  {
    assert Names(apps)[t] != Names(apps)[u];
  }

  lemma {:induction false} PoolEmpty(rs: seq<seq<Entry>>)
    requires forall p :: 0 <= p < |rs| ==> rs[p] == []
    ensures Pool(rs) == multiset{}
  {
    if rs != [] {
      PoolEmpty(rs[..|rs| - 1]);
    }
  }

  /** The initial state satisfies the invariant. */
  lemma {:induction false} StartInv(apps: seq<Applicant>, progs: seq<Listing>)
    requires WellFormed(apps, progs)
    ensures Inv(apps, progs, Start(apps, progs))
  {
    var r := Start(apps, progs);
    PoolEmpty(r.rosters);
    forall t | 0 <= t < |apps| ensures StudentPlaced(apps, r, Pool(r.rosters), t) {
      assert r.queue[t] == t;
    }
  }

  // ---------------------------------------------------------------------------
  // The loop over one school's programmes.

  lemma {:induction false} NameListed(roster: seq<Entry>, x: Entry)
    requires x in roster
    ensures x.name in SepSpec.RosterNames(roster)
  {
    var p :| 0 <= p < |roster| && roster[p] == x;
    assert SepSpec.RosterNames(roster)[p] == x.name;
  }

  /** A programme that hands back the proposer itself, where the proposer held nothing,
      keeps its roster as it was (as a multiset), sorted and of the same length. */
  lemma {:induction false} SelfEvicted(t: Terms, roster: seq<Entry>, a: Applicant, wanted: string)
    requires a.name !in SepSpec.RosterNames(roster)
    requires var v := Consider(t, roster, a, wanted); v.removed.Some? && v.removed.value.name == a.name
    ensures var v := Consider(t, roster, a, wanted);
      && v.removed == Some(EntryOf(a))
      && multiset(v.roster) == multiset(roster) && |v.roster| == |roster|
      && (SortedDesc(roster) ==> SortedDesc(v.roster))
  {
    var v := Consider(t, roster, a, wanted);
    if Eligible(t, a, wanted) {
      var e := EntryOf(a);
      AdmitContract(roster, t.quota, e);
      AdmitEvictsNewestMinimum(roster, t.quota, e);
      var x := v.removed.value;
      if x in roster {
        NameListed(roster, x);
      }
      assert x == e;
      AdmitRejectsNewcomer(roster, t.quota, e);
    }
  }

  /** The loop over the programmes changes at most one roster, that of programme `k`,
      where it stops: every other roster keeps its entries (the proposer handed back
      leaves them as they were), sorted and of the same length.  When the loop stops at
      `k`, that programme belongs to the school, the student is eligible for it, and it
      admitted the student by `Admit`, popping someone else or nobody. */
  lemma {:induction false} TryFromShape(progs: seq<Listing>, rosters: seq<seq<Entry>>,
    a: Applicant, wanted: string, school: string, j: nat) returns (k: nat)
    requires |rosters| == |progs| && j <= |progs|
    requires forall p :: j <= p < |progs| ==> a.name !in SepSpec.RosterNames(rosters[p])
    ensures var t := TryFrom(progs, rosters, a, wanted, school, j);
      && j <= k <= |progs| && (k < |progs| <==> t.accepted)
      && (forall p :: 0 <= p < |progs| && p != k ==>
            && multiset(t.rosters[p]) == multiset(rosters[p])
            && |t.rosters[p]| == |rosters[p]|
            && (SortedDesc(rosters[p]) ==> SortedDesc(t.rosters[p])))
      && (k == |progs| ==> t.displaced.None?)
      && (k < |progs| ==>
            && progs[k].terms.school == school && Eligible(progs[k].terms, a, wanted)
            && Admission(t.rosters[k], t.displaced) == Admit(rosters[k], progs[k].terms.quota, EntryOf(a))
            && (t.displaced.Some? ==> t.displaced.value.name != a.name))
    decreases |progs| - j
  {
    if j == |progs| {
      k := j;
    } else if progs[j].terms.school != school {
      k := TryFromShape(progs, rosters, a, wanted, school, j + 1);
    } else {
      var v := Consider(progs[j].terms, rosters[j], a, wanted);
      var rs := rosters[j := v.roster];
      if v.removed.Some? && v.removed.value.name == a.name {
        SelfEvicted(progs[j].terms, rosters[j], a, wanted);
        assert forall p :: j + 1 <= p < |progs| ==> rs[p] == rosters[p];
        k := TryFromShape(progs, rs, a, wanted, school, j + 1);
      } else {
        k := j;
      }
    }
  }

  /** Rows logged by one pass over the programmes for proposer `name`: rejections, each
      with a reason; all but possibly the last hand back the proposer, and one that hands
      back anyone else does so because the programme is full. */
  ghost predicate RejectionRows(events: seq<Event>, name: string)
  {
    && (forall q :: 0 <= q < |events| ==> events[q].action == RejectedBy && EventOk(events[q]))
    && (forall q :: 0 <= q < |events| - 1 ==> events[q].student == name)
    && (forall q :: 0 <= q < |events| && events[q].student != name ==>
          events[q].reason.Some? && events[q].reason.value.QuotaReached?)
  }

  lemma {:induction false} TryFromEvents(progs: seq<Listing>, rosters: seq<seq<Entry>>,
    a: Applicant, wanted: string, school: string, j: nat)
    requires |rosters| == |progs| && j <= |progs|
    ensures RejectionRows(TryFrom(progs, rosters, a, wanted, school, j).events, a.name)
    decreases |progs| - j
  {
    var t := TryFrom(progs, rosters, a, wanted, school, j);
    if j < |progs| {
      if progs[j].terms.school != school {
        TryFromEvents(progs, rosters, a, wanted, school, j + 1);
      } else {
        var v := Consider(progs[j].terms, rosters[j], a, wanted);
        var rs := rosters[j := v.roster];
        if v.removed.Some? && v.removed.value.name == a.name {
          TryFromEvents(progs, rs, a, wanted, school, j + 1);
          var rest := TryFrom(progs, rs, a, wanted, school, j + 1);
          var ev := Rejection(v.removed.value, school, progs[j].id, v.reason);
          assert t.events == [ev] + rest.events;
          assert ev.student == a.name && EventOk(ev);
          forall q | 1 <= q < |t.events| ensures t.events[q] == rest.events[q - 1] {
          }
        } else if v.removed.Some? {
          assert Eligible(progs[j].terms, a, wanted);
          var ev := Rejection(v.removed.value, school, progs[j].id, v.reason);
          assert t.events == [ev];
        } else {
          assert t.events == [];
        }
      }
    }
  }

  /** The head of the queue holds no place, so no roster lists its name. */
  lemma {:induction false} HeadUnlisted(apps: seq<Applicant>, progs: seq<Listing>, r: Run)
    requires Inv(apps, progs, r) && r.queue != []
    ensures forall p :: 0 <= p < |progs| ==> apps[r.queue[0]].name !in SepSpec.RosterNames(r.rosters[p])
  {
    var i := r.queue[0];
    NameIndex(apps, i);
    forall p | 0 <= p < |progs| ensures apps[i].name !in SepSpec.RosterNames(r.rosters[p]) {
      if apps[i].name in SepSpec.RosterNames(r.rosters[p]) {
        var q :| 0 <= q < |r.rosters[p]| && SepSpec.RosterNames(r.rosters[p])[q] == apps[i].name;
        PoolHas(r.rosters, p, r.rosters[p][q]);
      }
    }
  }

  /** A pass over the programmes, for a student no roster lists, keeps every roster
      sorted and within its quota. */
  lemma {:induction false} TryFromRosters(progs: seq<Listing>, rosters: seq<seq<Entry>>, a: Applicant,
    wanted: string, school: string)
    requires |rosters| == |progs|
    requires forall p :: 0 <= p < |progs| ==> RosterOk(progs, rosters, p)
    requires forall p :: 0 <= p < |progs| ==> a.name !in SepSpec.RosterNames(rosters[p])
    ensures var t := TryFrom(progs, rosters, a, wanted, school, 0);
      forall p :: 0 <= p < |progs| ==> RosterOk(progs, t.rosters, p)
  {
    var t := TryFrom(progs, rosters, a, wanted, school, 0);
    var k := TryFromShape(progs, rosters, a, wanted, school, 0);
    if k < |progs| {
      assert RosterOk(progs, rosters, k);
      AdmitContract(rosters[k], progs[k].terms.quota, EntryOf(a));
    }
    forall p | 0 <= p < |progs| ensures RosterOk(progs, t.rosters, p) {
      assert RosterOk(progs, rosters, p);
    }
  }

  /** A pass over the programmes, for a student no roster lists, changes the pool by
      exactly the student's entry coming in (when it is accepted) and the displaced entry
      going out; the displaced entry is someone else's. */
  lemma {:induction false} TryFromPool(progs: seq<Listing>, rosters: seq<seq<Entry>>, a: Applicant,
    wanted: string, school: string)
    requires |rosters| == |progs|
    requires forall p :: 0 <= p < |progs| ==> a.name !in SepSpec.RosterNames(rosters[p])
    ensures var t := TryFrom(progs, rosters, a, wanted, school, 0);
      && (forall x :: Pool(t.rosters)[x] + AsMultiset(t.displaced)[x]
            == Pool(rosters)[x] + (if t.accepted && x == EntryOf(a) then 1 else 0))
      && (t.displaced.Some? ==> t.accepted && t.displaced.value.name != a.name)
  {
    var t := TryFrom(progs, rosters, a, wanted, school, 0);
    var k := TryFromShape(progs, rosters, a, wanted, school, 0);
    if k == |progs| {
      PoolSame(t.rosters, rosters);
    } else {
      var mid := rosters[k := t.rosters[k]];
      PoolSame(t.rosters, mid);
      forall x ensures Pool(t.rosters)[x] + AsMultiset(t.displaced)[x]
          == Pool(rosters)[x] + (if x == EntryOf(a) then 1 else 0) {
        PoolUpdate(rosters, k, t.rosters[k], x);
        AdmitCount(rosters[k], progs[k].terms.quota, EntryOf(a), x);
      }
    }
  }

  // ---------------------------------------------------------------------------
  // One iteration keeps the invariant and decreases the measure.

  /** Choices not yet proposed to, summed over all students. */
  function Pending(apps: seq<Applicant>, cursors: seq<nat>): nat
  {
    if apps == [] || |cursors| != |apps| then 0
    else
      var n := |apps| - 1;
      (if cursors[n] <= |apps[n].preferences| then |apps[n].preferences| - cursors[n] else 0)
      + Pending(apps[..n], cursors[..n])
  }

  lemma {:induction false} PendingAdvance(apps: seq<Applicant>, cursors: seq<nat>, i: nat)
    requires |cursors| == |apps|
    requires forall j :: 0 <= j < |apps| ==> cursors[j] <= |apps[j].preferences|
    requires i < |apps| && cursors[i] < |apps[i].preferences|
    ensures Pending(apps, cursors[i := cursors[i] + 1]) == Pending(apps, cursors) - 1
  {
    var n := |apps| - 1;
    var c2 := cursors[i := cursors[i] + 1];
    if i == n {
      assert c2[..n] == cursors[..n];
    } else {
      assert c2[..n] == cursors[..n][i := cursors[i] + 1];
      PendingAdvance(apps[..n], cursors[..n], i);
    }
  }

  /** The measure: pending choices first, then the length of the queue. */
  predicate Decreases(apps: seq<Applicant>, r: Run, r2: Run)
  {
    || Pending(apps, r2.cursors) < Pending(apps, r.cursors)
    || (Pending(apps, r2.cursors) == Pending(apps, r.cursors) && |r2.queue| < |r.queue|)
  }

  /** How the pool moves in one iteration: entry `e` comes in when `accepted`, entry `d`
      (if any) goes out, and every other entry keeps its count. */
  ghost predicate Moved(pool: multiset<Entry>, pool2: multiset<Entry>, e: Entry, d: Option<Entry>,
    accepted: bool)
  {
    && (forall x :: x != e && d != Some(x) ==> pool2[x] == pool[x])
    && (accepted <==> e in pool2)
    && (d.Some? ==> d.value in pool && d.value !in pool2)
  }

  lemma {:induction false} NextPoolOk(apps: seq<Applicant>, pool: multiset<Entry>, pool2: multiset<Entry>, e: Entry,
    d: Option<Entry>, accepted: bool)
    requires PoolOk(apps, pool) && e !in pool && Known(apps, e)
    requires forall x :: pool2[x] + AsMultiset(d)[x] == pool[x] + (if accepted && x == e then 1 else 0)
    requires d.Some? ==> d.value != e
    ensures PoolOk(apps, pool2) && Moved(pool, pool2, e, d, accepted)
    ensures d.Some? ==> Known(apps, d.value)
  {
    assert pool2[e] + AsMultiset(d)[e] == pool[e] + (if accepted then 1 else 0);
    if d.Some? {
      var x := d.value;
      assert pool2[x] + 1 == pool[x];
    }
    forall x | x in pool2 ensures pool2[x] == 1 && Known(apps, x) {
      assert pool2[x] + AsMultiset(d)[x] == pool[x] + (if accepted && x == e then 1 else 0);
    }
  }

  /** After the iteration the queue is the old tail plus `extra`: the proposer when no
      programme kept it, nobody, or the student displaced. */
  ghost predicate Requeue(apps: seq<Applicant>, i: nat, extra: seq<nat>, d: Option<Entry>, accepted: bool)
  {
    && (!accepted ==> extra == [i])
    && (accepted && d.None? ==> extra == [])
    && (d.Some? ==> |extra| == 1 && extra[0] < |apps| && EntryOf(apps[extra[0]]) == d.value)
  }

  lemma {:induction false} NextQueueOk(apps: seq<Applicant>, pool: multiset<Entry>, pool2: multiset<Entry>,
    queue: seq<nat>, extra: seq<nat>, d: Option<Entry>, accepted: bool)
    requires Distinct(Names(apps)) && queue != []
    requires forall q :: 0 <= q < |queue| ==> queue[q] < |apps|
    requires QueueOk(apps, pool, queue)
    requires Moved(pool, pool2, EntryOf(apps[queue[0]]), d, accepted)
    requires Requeue(apps, queue[0], extra, d, accepted)
    requires d.Some? ==> accepted
    ensures forall q :: 0 <= q < |queue[1..] + extra| ==> (queue[1..] + extra)[q] < |apps|
    ensures QueueOk(apps, pool2, queue[1..] + extra)
  {
    var i, rest := queue[0], queue[1..];
    var e := EntryOf(apps[i]);
    DistinctTail(queue);
    forall q | 0 <= q < |rest| ensures EntryOf(apps[rest[q]]) !in pool2 {
      assert rest[q] == queue[q + 1];
      EntryInjective(apps, rest[q], i);
      if d.Some? {
        assert EntryOf(apps[rest[q]]) != d.value;
      }
    }
    if extra != [] {
      var o := extra[0];
      forall q | 0 <= q < |rest| ensures rest[q] != o {
        assert rest[q] == queue[q + 1];
      }
      DistinctAppend(rest, o);
      assert rest + extra == rest + [o];
    } else {
      assert rest + extra == rest;
    }
  }

  lemma {:induction false} NextPlaced(apps: seq<Applicant>, r: Run, pool2: multiset<Entry>, r2: Run,
    extra: seq<nat>, d: Option<Entry>, accepted: bool)
    requires Distinct(Names(apps)) && |r.cursors| == |apps| && r.queue != [] && r.queue[0] < |apps|
    requires Placed(apps, r, Pool(r.rosters))
    requires Moved(Pool(r.rosters), pool2, EntryOf(apps[r.queue[0]]), d, accepted)
    requires Requeue(apps, r.queue[0], extra, d, accepted)
    requires r2.queue == r.queue[1..] + extra && |r2.cursors| == |apps|
    requires forall t :: 0 <= t < |apps| && t != r.queue[0] ==> r2.cursors[t] == r.cursors[t]
    ensures Placed(apps, r2, pool2)
  {
    var i, rest := r.queue[0], r.queue[1..];
    forall t | 0 <= t < |apps| ensures StudentPlaced(apps, r2, pool2, t) {
      assert StudentPlaced(apps, r, Pool(r.rosters), t);
      if t == i {
        if !accepted {
          assert r2.queue[|rest|] == i;
        }
      } else {
        EntryInjective(apps, t, i);
        if t in rest {
          var q :| 0 <= q < |rest| && rest[q] == t;
          assert r2.queue[q] == t;
        }
        if d.Some? {
          if EntryOf(apps[t]) == d.value {
            assert r2.queue[|rest|] == extra[0];
            assert Names(apps)[t] == Names(apps)[extra[0]];
          }
        }
      }
    }
  }

  /** An iteration whose student has no choice left drops it from the queue. */
  lemma {:induction false} StepExhaustedInv(apps: seq<Applicant>, progs: seq<Listing>, r: Run)
    requires Inv(apps, progs, r) && r.queue != []
    requires r.cursors[r.queue[0]] == |apps[r.queue[0]].preferences|
    ensures Step(apps, progs, r).Next?
    ensures Inv(apps, progs, Step(apps, progs, r).run)
    ensures Decreases(apps, r, Step(apps, progs, r).run)
  {
    var r2 := Step(apps, progs, r).run;
    var pool := Pool(r.rosters);
    DistinctTail(r.queue);
    forall q | 0 <= q < |r2.queue| ensures EntryOf(apps[r2.queue[q]]) !in pool {
      assert r2.queue[q] == r.queue[q + 1];
    }
    forall t | 0 <= t < |apps| ensures StudentPlaced(apps, r2, pool, t) {
      assert StudentPlaced(apps, r, pool, t);
      if t in r.queue && t != r.queue[0] {
        var q :| 0 <= q < |r.queue| && r.queue[q] == t;
        assert r2.queue[q - 1] == t;
      }
    }
  }

  /** What one pass over the programmes gives the head of the queue: the rosters stay in
      order, the pool moves by the proposer coming in and the displaced student going
      out, the rows logged are rejections, and `extra` is the student to re-queue. */
  lemma {:induction false} AttemptFacts(apps: seq<Applicant>, progs: seq<Listing>, r: Run) returns (t: Tried, extra: seq<nat>)
    requires Inv(apps, progs, r) && r.queue != []
    requires r.cursors[r.queue[0]] < |apps[r.queue[0]].preferences|
    ensures var i := r.queue[0];
      var choice := apps[i].preferences[r.cursors[i]];
      t == TryFrom(progs, r.rosters, apps[i], choice.semester, choice.school, 0)
    ensures |t.rosters| == |progs|
    ensures Requeue(apps, r.queue[0], extra, t.displaced, t.accepted)
    ensures t.displaced.Some? ==> t.accepted
    ensures PoolOk(apps, Pool(t.rosters))
    ensures Moved(Pool(r.rosters), Pool(t.rosters), EntryOf(apps[r.queue[0]]), t.displaced, t.accepted)
    ensures forall p :: 0 <= p < |progs| ==> RosterOk(progs, t.rosters, p)
    ensures RejectionRows(t.events, apps[r.queue[0]].name)
  {
    var i := r.queue[0];
    var a := apps[i];
    var choice := a.preferences[r.cursors[i]];
    t := TryFrom(progs, r.rosters, a, choice.semester, choice.school, 0);
    HeadUnlisted(apps, progs, r);
    TryFromRosters(progs, r.rosters, a, choice.semester, choice.school);
    TryFromPool(progs, r.rosters, a, choice.semester, choice.school);
    TryFromEvents(progs, r.rosters, a, choice.semester, choice.school, 0);
    NameIndex(apps, i);
    assert EntryOf(a) !in Pool(r.rosters);
    NextPoolOk(apps, Pool(r.rosters), Pool(t.rosters), EntryOf(a), t.displaced, t.accepted);
    if !t.accepted {
      extra := [i];
    } else if t.displaced.None? {
      extra := [];
    } else {
      var o := IndexOf(Names(apps), t.displaced.value.name).value;
      extra := [o];
    }
  }

  /** The iteration in which the head of the queue proposes, written out: the cursor
      advances, the rosters are those of the pass, `extra` joins the tail of the queue,
      and the proposal row and then the pass's rows join the log. */
  lemma {:induction false} StepEquation(apps: seq<Applicant>, progs: seq<Listing>, r: Run, extra: seq<nat>)
    requires Shaped(apps, progs, r) && Distinct(Names(apps)) && r.queue != []
    requires r.cursors[r.queue[0]] < |apps[r.queue[0]].preferences|
    requires var i := r.queue[0];
      var choice := apps[i].preferences[r.cursors[i]];
      var t := TryFrom(progs, r.rosters, apps[i], choice.semester, choice.school, 0);
      Requeue(apps, i, extra, t.displaced, t.accepted) && (t.displaced.Some? ==> t.accepted)
    ensures var i := r.queue[0];
      var c := r.cursors[i];
      var choice := apps[i].preferences[c];
      var t := TryFrom(progs, r.rosters, apps[i], choice.semester, choice.school, 0);
      Step(apps, progs, r) == Next(Run(r.cursors[i := c + 1], t.rosters, r.queue[1..] + extra,
        r.log + [Proposal(apps[i], c + 1)] + t.events))
  {
    if extra != [] {
      NameIndex(apps, extra[0]);
    }
  }

  /** An iteration in which the head of the queue proposes, written out, with `extra`
      the index joining the tail of the queue: the proposer when no programme kept it,
      nobody, or the student turned away, found by name. */
  lemma {:induction false} StepProposes(apps: seq<Applicant>, progs: seq<Listing>, r: Run) returns (extra: seq<nat>)
    requires Shaped(apps, progs, r) && r.queue != [] && Step(apps, progs, r).Next?
    requires r.cursors[r.queue[0]] < |apps[r.queue[0]].preferences|
    ensures var i := r.queue[0];
      var c := r.cursors[i];
      var choice := apps[i].preferences[c];
      var t := TryFrom(progs, r.rosters, apps[i], choice.semester, choice.school, 0);
      && Step(apps, progs, r).run == Run(r.cursors[i := c + 1], t.rosters, r.queue[1..] + extra,
                                         r.log + [Proposal(apps[i], c + 1)] + t.events)
      && (!t.accepted ==> extra == [i])
      && (t.accepted && t.displaced.None? ==> extra == [])
      && (t.accepted && t.displaced.Some? ==>
            |extra| == 1 && IndexOf(Names(apps), t.displaced.value.name) == Some(extra[0]))
  {
    var i := r.queue[0];
    var choice := apps[i].preferences[r.cursors[i]];
    var t := TryFrom(progs, r.rosters, apps[i], choice.semester, choice.school, 0);
    if !t.accepted {
      extra := [i];
    } else if t.displaced.None? {
      extra := [];
    } else {
      extra := [IndexOf(Names(apps), t.displaced.value.name).value];
    }
  }

  lemma {:induction false} LogExtend(log: seq<Event>, a: Applicant, choice: nat, events: seq<Event>)
    requires LogOk(log) && 1 <= choice <= |a.preferences| && RejectionRows(events, a.name)
    ensures LogOk(log + [Proposal(a, choice)] + events)
  {
    var log2 := log + [Proposal(a, choice)] + events;
    forall q | 0 <= q < |log2| ensures EventOk(log2[q]) {
      if q < |log| {
        assert log2[q] == log[q];
      } else if q > |log| {
        assert log2[q] == events[q - |log| - 1];
      }
    }
  }

  /** The invariant of the state after a proposal, from its parts. */
  lemma {:induction false} NextInv(apps: seq<Applicant>, progs: seq<Listing>, r: Run, r2: Run, extra: seq<nat>,
    d: Option<Entry>, accepted: bool)
    requires WellFormed(apps, progs) && Shaped(apps, progs, r) && r.queue != []
    requires QueueOk(apps, Pool(r.rosters), r.queue) && Placed(apps, r, Pool(r.rosters))
    requires r.cursors[r.queue[0]] < |apps[r.queue[0]].preferences|
    requires r2.cursors == r.cursors[r.queue[0] := r.cursors[r.queue[0]] + 1]
    requires r2.queue == r.queue[1..] + extra && |r2.rosters| == |progs|
    requires Requeue(apps, r.queue[0], extra, d, accepted) && (d.Some? ==> accepted)
    requires PoolOk(apps, Pool(r2.rosters))
    requires Moved(Pool(r.rosters), Pool(r2.rosters), EntryOf(apps[r.queue[0]]), d, accepted)
    requires forall p :: 0 <= p < |progs| ==> RosterOk(progs, r2.rosters, p)
    requires LogOk(r2.log)
    ensures Inv(apps, progs, r2)
  {
    NextQueueOk(apps, Pool(r.rosters), Pool(r2.rosters), r.queue, extra, d, accepted);
    CursorAdvance(apps, r.cursors, r2.cursors, r.queue[0]);
    NextPlaced(apps, r, Pool(r2.rosters), r2, extra, d, accepted);
  }

  lemma {:induction false} CursorAdvance(apps: seq<Applicant>, cursors: seq<nat>, cursors2: seq<nat>, i: nat)
    requires |cursors| == |apps| && i < |apps| && cursors[i] < |apps[i].preferences|
    requires forall t :: 0 <= t < |apps| ==> cursors[t] <= |apps[t].preferences|
    requires cursors2 == cursors[i := cursors[i] + 1]
    ensures |cursors2| == |apps|
    ensures forall t :: 0 <= t < |apps| ==> cursors2[t] <= |apps[t].preferences|
    ensures forall t :: 0 <= t < |apps| && t != i ==> cursors2[t] == cursors[t]
  {
  }

  lemma {:induction false} AdvanceDecreases(apps: seq<Applicant>, progs: seq<Listing>, r: Run, r2: Run, i: nat)
    requires Shaped(apps, progs, r) && Shaped(apps, progs, r2)
    requires i < |apps| && r.cursors[i] < |apps[i].preferences|
    requires r2.cursors == r.cursors[i := r.cursors[i] + 1]
    ensures Decreases(apps, r, r2)
  {
    PendingAdvance(apps, r.cursors, i);
  }

  /** An iteration in which the head of the queue proposes keeps the invariant and
      spends one pending choice. */
  lemma {:induction false} StepProposalInv(apps: seq<Applicant>, progs: seq<Listing>, r: Run)
    requires Inv(apps, progs, r) && r.queue != []
    requires r.cursors[r.queue[0]] < |apps[r.queue[0]].preferences|
    ensures Step(apps, progs, r).Next?
    ensures Inv(apps, progs, Step(apps, progs, r).run)
    ensures Decreases(apps, r, Step(apps, progs, r).run)
  {
    var i := r.queue[0];
    var c := r.cursors[i];
    var choice := apps[i].preferences[c];
    var t, extra := AttemptFacts(apps, progs, r);
    StepEquation(apps, progs, r, extra);
    ProposalInv(apps, progs, r, t, extra);
  }

  /** The invariant and the measure for the state after a proposal, given the facts about
      the pass over the programmes. */
  lemma {:induction false} ProposalInv(apps: seq<Applicant>, progs: seq<Listing>, r: Run, t: Tried, extra: seq<nat>)
    requires Inv(apps, progs, r) && r.queue != []
    requires r.cursors[r.queue[0]] < |apps[r.queue[0]].preferences|
    requires |t.rosters| == |progs|
    requires Requeue(apps, r.queue[0], extra, t.displaced, t.accepted)
    requires t.displaced.Some? ==> t.accepted
    requires PoolOk(apps, Pool(t.rosters))
    requires Moved(Pool(r.rosters), Pool(t.rosters), EntryOf(apps[r.queue[0]]), t.displaced, t.accepted)
    requires forall p :: 0 <= p < |progs| ==> RosterOk(progs, t.rosters, p)
    requires RejectionRows(t.events, apps[r.queue[0]].name)
    ensures var i := r.queue[0];
      var c := r.cursors[i];
      var r2 := Run(r.cursors[i := c + 1], t.rosters, r.queue[1..] + extra,
        r.log + [Proposal(apps[i], c + 1)] + t.events);
      Inv(apps, progs, r2) && Decreases(apps, r, r2)
  {
    var i := r.queue[0];
    var c := r.cursors[i];
    var r2 := Run(r.cursors[i := c + 1], t.rosters, r.queue[1..] + extra,
      r.log + [Proposal(apps[i], c + 1)] + t.events);
    LogExtend(r.log, apps[i], c + 1, t.events);
    NextInv(apps, progs, r, r2, extra, t.displaced, t.accepted);
    AdvanceDecreases(apps, progs, r, r2, i);
  }

  /** Every iteration keeps the invariant, never raises, and decreases the measure, so
      the loop ends. */
  lemma {:induction false} StepKeepsInv(apps: seq<Applicant>, progs: seq<Listing>, r: Run)
    requires Inv(apps, progs, r) && r.queue != []
    ensures Step(apps, progs, r).Next?
    ensures Inv(apps, progs, Step(apps, progs, r).run)
    ensures Decreases(apps, r, Step(apps, progs, r).run)
  {
    if r.cursors[r.queue[0]] == |apps[r.queue[0]].preferences| {
      StepExhaustedInv(apps, progs, r);
    } else {
      StepProposalInv(apps, progs, r);
    }
  }

  // ---------------------------------------------------------------------------
  // The final state and the result maps.

  /** The programmes as the result maps see them: keyed by ID. */
  function Seats(progs: seq<Listing>): (seats: seq<SepSpec.Seat>)
    ensures |seats| == |progs|
    ensures forall p :: 0 <= p < |progs| ==> seats[p] == SepSpec.Seat(progs[p].id, progs[p].terms.quota)
    ensures SepSpec.SeatNames(seats) == Ids(progs)
  {
    seq(|progs|, p requires 0 <= p < |progs| => SepSpec.Seat(progs[p].id, progs[p].terms.quota))
  }

  /** A roster lists a student's name exactly when it holds the student's entry. */
  lemma {:induction false} ListedIsEntry(apps: seq<Applicant>, progs: seq<Listing>, r: Run, p: nat, t: nat)
    requires Inv(apps, progs, r) && p < |progs| && t < |apps|
    ensures apps[t].name in SepSpec.RosterNames(r.rosters[p]) <==> EntryOf(apps[t]) in r.rosters[p]
  {
    if apps[t].name in SepSpec.RosterNames(r.rosters[p]) {
      var q :| 0 <= q < |r.rosters[p]| && SepSpec.RosterNames(r.rosters[p])[q] == apps[t].name;
      PoolHas(r.rosters, p, r.rosters[p][q]);
      NameIndex(apps, t);
    }
    if EntryOf(apps[t]) in r.rosters[p] {
      NameListed(r.rosters[p], EntryOf(apps[t]));
    }
  }

  /** No student holds places at two programmes. */
  lemma {:induction false} HeldOnce(apps: seq<Applicant>, progs: seq<Listing>, r: Run, x: Entry, p1: nat, p2: nat)
    requires Inv(apps, progs, r) && p1 < |progs| && p2 < |progs|
    requires x in r.rosters[p1] && x in r.rosters[p2]
    ensures p1 == p2
  {
    PoolHas(r.rosters, p1, x);
    if p1 < p2 {
      PoolTwice(r.rosters, p1, p2, x);
    } else if p2 < p1 {
      PoolTwice(r.rosters, p2, p1, x);
    }
  }

  /** Under the invariant the result's view of who holds a place (the last roster listing
      the name) is the one programme holding the student's entry. */
  lemma {:induction false} HolderIsHeld(apps: seq<Applicant>, progs: seq<Listing>, r: Run, t: nat)
    requires Inv(apps, progs, r) && t < |apps|
    ensures forall p :: 0 <= p < |progs| ==>
      (SepSpec.Holder(r.rosters, apps[t].name) == Some(p) <==> EntryOf(apps[t]) in r.rosters[p])
  {
    var n := apps[t].name;
    forall p | 0 <= p < |progs|
      ensures SepSpec.Holder(r.rosters, n) == Some(p) <==> EntryOf(apps[t]) in r.rosters[p]
    {
      ListedIsEntry(apps, progs, r, p, t);
      match SepSpec.Holder(r.rosters, n)
      case None =>
      case Some(k) =>
        ListedIsEntry(apps, progs, r, k, t);
        if EntryOf(apps[t]) in r.rosters[p] {
          HeldOnce(apps, progs, r, EntryOf(apps[t]), p, k);
        }
    }
  }

  /** When the queue runs empty, a student no programme holds has proposed to every
      choice on its list. */
  lemma {:induction false} FinalPlacement(apps: seq<Applicant>, progs: seq<Listing>, r: Run, t: nat)
    requires Inv(apps, progs, r) && r.queue == [] && t < |apps|
    ensures SepSpec.Holder(r.rosters, apps[t].name).None? ==> r.cursors[t] == |apps[t].preferences|
  {
    assert StudentPlaced(apps, r, Pool(r.rosters), t);
    if EntryOf(apps[t]) in Pool(r.rosters) {
      var p := PoolFind(r.rosters, EntryOf(apps[t]));
      HolderIsHeld(apps, progs, r, t);
    }
  }

  /** Under the invariant the assignment map has exactly the students' names as keys. */
  lemma {:induction false} AssignmentsKeys(apps: seq<Applicant>, progs: seq<Listing>, r: Run)
    requires Inv(apps, progs, r)
    ensures SepSpec.Assignments(Names(apps), Seats(progs), r.rosters).Keys == set n | n in Names(apps)
  {
    forall n | n in SepSpec.ListedNames(r.rosters) ensures n in Names(apps) {
      var p, q :| 0 <= p < |r.rosters| && 0 <= q < |r.rosters[p]| && r.rosters[p][q].name == n;
      PoolHas(r.rosters, p, r.rosters[p][q]);
      assert Known(apps, r.rosters[p][q]);
    }
  }

  /** Student `t`'s value in the assignment map built from the final rosters is the ID
      of programme `p` exactly when `p` holds the student. */
  lemma {:induction false} HeldAt(apps: seq<Applicant>, progs: seq<Listing>, r: Run, t: nat, p: nat)
    requires Inv(apps, progs, r) && t < |apps| && p < |progs|
    ensures apps[t].name in SepSpec.Assignments(Names(apps), Seats(progs), r.rosters)
    ensures SepSpec.Assignments(Names(apps), Seats(progs), r.rosters)[apps[t].name] == Some(progs[p].id)
        <==> EntryOf(apps[t]) in r.rosters[p]
  {
    HolderIsHeld(apps, progs, r, t);
    assert Names(apps)[t] == apps[t].name;
    match SepSpec.Holder(r.rosters, apps[t].name)
    case None =>
    case Some(k) =>
      if k != p {
        assert Ids(progs)[k] != Ids(progs)[p];
      }
  }

  /** What the two result maps say of final rosters `rs` and cursors `cs`: every roster
      is sorted best first and within its quota; the assignment map sends every student
      name (and nothing else) to the ID of the one programme holding the student, or to
      none, and a student left unassigned has proposed to every choice on its list; the
      enrollment map sends every programme ID (and nothing else) to the names on its
      roster, in roster order. */
  ghost predicate ResultOk(apps: seq<Applicant>, progs: seq<Listing>, rs: seq<seq<Entry>>, cs: seq<nat>,
                           assignments: map<string, Option<string>>, enrollments: map<string, seq<string>>)
    requires |rs| == |progs| && |cs| == |apps|
  {
    && (forall p :: 0 <= p < |progs| ==> RosterOk(progs, rs, p))
    && assignments.Keys == (set n | n in Names(apps))
    && (forall t, p :: 0 <= t < |apps| && 0 <= p < |progs| ==>
          (assignments[apps[t].name] == Some(progs[p].id) <==> EntryOf(apps[t]) in rs[p]))
    && (forall t :: 0 <= t < |apps| && assignments[apps[t].name].None? ==> cs[t] == |apps[t].preferences|)
    && enrollments.Keys == (set n | n in Ids(progs))
    && (forall p :: 0 <= p < |progs| ==> enrollments[progs[p].id] == SepSpec.RosterNames(rs[p]))
  }

  /** Once the queue is empty, the maps built from the rosters as the source builds them
      (`SepSpec.Assignments`, `SepSpec.Enrolled`, keyed by programme ID) meet `ResultOk`. */
  lemma {:induction false} FinalResult(apps: seq<Applicant>, progs: seq<Listing>, r: Run)
    requires Inv(apps, progs, r) && r.queue == []
    ensures ResultOk(apps, progs, r.rosters, r.cursors,
      SepSpec.Assignments(Names(apps), Seats(progs), r.rosters), SepSpec.Enrolled(Seats(progs), r.rosters))
  {
    var seats := Seats(progs);
    var assignments := SepSpec.Assignments(Names(apps), seats, r.rosters);
    AssignmentsKeys(apps, progs, r);
    forall t, p | 0 <= t < |apps| && 0 <= p < |progs|
      ensures assignments[apps[t].name] == Some(progs[p].id) <==> EntryOf(apps[t]) in r.rosters[p]
    {
      HeldAt(apps, progs, r, t, p);
    }
    forall t | 0 <= t < |apps| && assignments[apps[t].name].None?
      ensures r.cursors[t] == |apps[t].preferences|
    {
      assert Names(apps)[t] == apps[t].name;
      FinalPlacement(apps, progs, r, t);
    }
    forall p | 0 <= p < |progs| ensures SepSpec.Enrolled(seats, r.rosters)[progs[p].id] == SepSpec.RosterNames(r.rosters[p]) {
      SepSpec.EnrolledAt(seats, r.rosters, p);
    }
  }

  // ---------------------------------------------------------------------------
  // The queue and the log over one iteration.

  /** An iteration drops the head of the queue, keeps the rest in order and re-queues at
      most one student at the tail. */
  lemma {:induction false} StepQueueFifo(apps: seq<Applicant>, progs: seq<Listing>, r: Run)
    requires Shaped(apps, progs, r) && r.queue != [] && Step(apps, progs, r).Next?
    ensures var q2 := Step(apps, progs, r).run.queue;
      |q2| <= |r.queue| && q2[..|r.queue| - 1] == r.queue[1..]
  {
    var q2 := Step(apps, progs, r).run.queue;
    assert |q2| >= |r.queue| - 1;
  }

  /** An iteration logs nothing when the student has no choice left; otherwise it logs
      the proposal, numbered from 1, and then only rejections, each with a reason. */
  lemma {:induction false} StepLog(apps: seq<Applicant>, progs: seq<Listing>, r: Run) returns (rows: seq<Event>)
    requires Shaped(apps, progs, r) && r.queue != [] && Step(apps, progs, r).Next?
    ensures var i := r.queue[0];
      var c := r.cursors[i];
      var log2 := Step(apps, progs, r).run.log;
      && (c == |apps[i].preferences| ==> log2 == r.log)
      && (c < |apps[i].preferences| ==>
            log2 == r.log + [Proposal(apps[i], c + 1)] + rows && RejectionRows(rows, apps[i].name))
  {
    var i := r.queue[0];
    var c := r.cursors[i];
    rows := [];
    if c < |apps[i].preferences| {
      var choice := apps[i].preferences[c];
      rows := TryFrom(progs, r.rosters, apps[i], choice.semester, choice.school, 0).events;
      TryFromEvents(progs, r.rosters, apps[i], choice.semester, choice.school, 0);
    }
  }

  // ---------------------------------------------------------------------------
  // The whole loop.

  /** The states the loop passes through: the first is `Start`, and each next one is
      what `Step` makes of the one before, which still had a queued student. */
  ghost predicate Trail(apps: seq<Applicant>, progs: seq<Listing>, runs: seq<Run>)
  {
    && runs != [] && runs[0] == Start(apps, progs)
    && forall k :: 0 <= k < |runs| - 1 ==>
         Shaped(apps, progs, runs[k]) && runs[k].queue != [] && Step(apps, progs, runs[k]) == Next(runs[k + 1])
  }

  /** A trail grows by one iteration. */
  lemma {:induction false} TrailExtend(apps: seq<Applicant>, progs: seq<Listing>, runs: seq<Run>)
    requires Trail(apps, progs, runs)
    requires Shaped(apps, progs, runs[|runs| - 1]) && runs[|runs| - 1].queue != []
    requires Step(apps, progs, runs[|runs| - 1]).Next?
    ensures Trail(apps, progs, runs + [Step(apps, progs, runs[|runs| - 1]).run])
    ensures |runs + [Step(apps, progs, runs[|runs| - 1]).run]| == |runs| + 1
  {
    var more := runs + [Step(apps, progs, runs[|runs| - 1]).run];
    forall k | 0 <= k < |more| - 1
      ensures Shaped(apps, progs, more[k]) && more[k].queue != [] && Step(apps, progs, more[k]) == Next(more[k + 1])
    {
      assert more[k] == runs[k];
      if k < |runs| - 1 {
        assert more[k + 1] == runs[k + 1];
      }
    }
  }

  /** Two trails from the same input agree on every state they both reach. */
  lemma {:induction false} TrailsMatch(apps: seq<Applicant>, progs: seq<Listing>, r1: seq<Run>, r2: seq<Run>, k: nat)
    requires Trail(apps, progs, r1) && Trail(apps, progs, r2) && k < |r1| && k < |r2|
    ensures r1[k] == r2[k]
  {
    if k > 0 {
      TrailsMatch(apps, progs, r1, r2, k - 1);
    }
  }

  /** The loop is deterministic: two trails from the same input that both end with an
      empty queue are the same trail, so the final rosters, cursors and log are fixed
      by the input. */
  lemma {:induction false} TrailsAgree(apps: seq<Applicant>, progs: seq<Listing>, r1: seq<Run>, r2: seq<Run>)
    requires Trail(apps, progs, r1) && r1[|r1| - 1].queue == []
    requires Trail(apps, progs, r2) && r2[|r2| - 1].queue == []
    ensures r1 == r2
  {
    if |r1| < |r2| {
      TrailsMatch(apps, progs, r1, r2, |r1| - 1);
      assert false;
    } else if |r2| < |r1| {
      TrailsMatch(apps, progs, r1, r2, |r2| - 1);
      assert false;
    }
    forall k | 0 <= k < |r1| ensures r1[k] == r2[k] {
      TrailsMatch(apps, progs, r1, r2, k);
    }
  }
}
