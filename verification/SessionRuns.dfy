/**
 The session table over all its runs: any interleaving of lookups and creations by any number
 of clients, with any tokens, including forged, stale and repeated ones.
 */
module SessionRuns {
  import opened Results
  import opened Numbers
  import opened Streams
  import opened Sessions

  /** One critical section of the table. */
  datatype Event =
    | Lookup(token: string, now: int)
    | Create(ov: CursorState, bs: CursorState, now: int)

  function Step(t: Table, e: Event): Table {
    match e
    case Lookup(token, now) => t.Touched(token, now)
    case Create(ov, bs, now) => t.Created(ov, bs, now)
  }

  /** The table before the i-th event. */
  function TableAt(run: seq<Event>, i: nat): Table
    requires i <= |run|
  {
    if i == 0 then EMPTY else Step(TableAt(run, i - 1), run[i - 1])
  }

  /** A run on a clock that never goes back, shorter than the session numbers can count. */
  predicate IsRun(run: seq<Event>) {
    && |run| <= MAX_UINT64
    && forall i, j :: 0 <= i <= j < |run| ==> run[i].now <= run[j].now
  }

  /** The session number that the i-th event hands out. */
  function IssuedID(run: seq<Event>, i: nat): nat
    requires i < |run| && run[i].Create?
  {
    TableAt(run, i + 1).nextID
  }

  function Issued(run: seq<Event>, i: nat): string
    requires i < |run| && run[i].Create?
  {
    Format(IssuedID(run, i), 10)
  }

  lemma StepCounts(t: Table, e: Event)
    requires t.nextID < MAX_UINT64
    ensures Step(t, e).nextID == if e.Create? then t.nextID + 1 else t.nextID
    ensures forall id :: id in Step(t, e).active ==> id in t.active || (e.Create? && id == t.nextID + 1)
  {
    assert t.NextID() == t.nextID + 1;
  }

  /** Session numbers count up from one and never pass the number of events. */
  lemma {:induction false} NumbersCountUp(run: seq<Event>, i: nat)
    requires IsRun(run) && i <= |run|
    ensures TableAt(run, i).nextID <= i
    ensures forall id :: id in TableAt(run, i).active ==> 1 <= id <= TableAt(run, i).nextID
  {
    if i > 0 {
      NumbersCountUp(run, i - 1);
      StepCounts(TableAt(run, i - 1), run[i - 1]);
    }
  }

  lemma {:induction false} NumbersNeverFall(run: seq<Event>, i: nat, j: nat)
    requires IsRun(run) && i <= j <= |run|
    ensures TableAt(run, i).nextID <= TableAt(run, j).nextID
  {
    if i < j {
      NumbersNeverFall(run, i, j - 1);
      NumbersCountUp(run, j - 1);
      StepCounts(TableAt(run, j - 1), run[j - 1]);
    }
  }

  /** A new session never takes a number that was ever handed out before. */
  lemma {:induction false} NumbersAreNeverReused(run: seq<Event>, i: nat, j: nat)
    requires IsRun(run) && i < j < |run| && run[i].Create? && run[j].Create?
    ensures IssuedID(run, i) < IssuedID(run, j)
    ensures Issued(run, i) != Issued(run, j)
    ensures forall k :: 0 <= k <= j ==> IssuedID(run, j) !in TableAt(run, k).active
  {
    NumbersNeverFall(run, i + 1, j);
    NumbersCountUp(run, j);
    StepCounts(TableAt(run, j), run[j]);
    assert IssuedID(run, j) == TableAt(run, j).nextID + 1;
    hide Step, Format, DigitsValue;
    FormatValue(IssuedID(run, i), 10);
    FormatValue(IssuedID(run, j), 10);
    forall k | 0 <= k <= j ensures IssuedID(run, j) !in TableAt(run, k).active {
      NumbersNeverFall(run, k, j);
      NumbersCountUp(run, k);
    }
  }

  lemma {:induction false} TokenFindsItsSession(t: Table, id: nat)
    requires id <= MAX_UINT64
    ensures t.Find(Format(id, 10)) == if id in t.active then Some(id) else None
  {
    ParseUintFormat(id, 10);
  }

  /** A step neither moves the positions of a session nor removes it before it expires. */
  lemma StepKeeps(t: Table, e: Event, id: nat)
    requires t.nextID < MAX_UINT64 && id <= t.nextID && id in t.active
    ensures id in Step(t, e).active ==>
              && Step(t, e).active[id].overlay == t.active[id].overlay
              && Step(t, e).active[id].baseline == t.active[id].baseline
              && (Step(t, e).active[id].expires == t.active[id].expires
                  || Step(t, e).active[id].expires == e.now + LIST_SESSION_TTL)
    ensures e.now <= t.active[id].expires ==> id in Step(t, e).active
  {
    assert t.NextID() == t.nextID + 1;
  }

  /** No event moves the positions of a live token. */
  lemma LiveTokensKeepTheirMeaning(t: Table, e: Event, token: string)
    requires t.Find(token).Some? && t.Find(token).value in Step(t, e).active && t.NextID() !in t.active
    ensures Step(t, e).Positions(token) == t.Positions(token)
  {
  }

  predicate Holds(t: Table, id: nat, ov: CursorState, bs: CursorState) {
    id in t.active && t.active[id].overlay == ov && t.active[id].baseline == bs
  }

  /**
   A session keeps its two positions for its whole life: whatever happens after its creation,
   while it is in the table it holds what it was created with.
   */
  lemma {:induction false} PositionsAreImmutable(run: seq<Event>, i: nat, j: nat)
    requires IsRun(run) && i < j <= |run| && run[i].Create?
    ensures IssuedID(run, i) in TableAt(run, j).active ==>
              Holds(TableAt(run, j), IssuedID(run, i), run[i].ov, run[i].bs)
  {
    if i + 1 < j {
      PositionsAreImmutable(run, i, j - 1);
      NumbersNeverFall(run, i + 1, j - 1);
      NumbersCountUp(run, j - 1);
      var t, id := TableAt(run, j - 1), IssuedID(run, i);
      StepCounts(t, run[j - 1]);
      if id in t.active {
        StepKeeps(t, run[j - 1], id);
      }
      hide Step;
    }
  }

  /** Whether the m-th event creates the session of the i-th event or presents a token for it. */
  predicate Uses(run: seq<Event>, i: nat, m: nat)
    requires i < |run| && run[i].Create? && m < |run|
  {
    m == i || (i < m && run[m].Lookup? && ParseUint(run[m].token, 10) == Some(IssuedID(run, i)))
  }

  /** The last use of a session before the j-th event. */
  function LastUse(run: seq<Event>, i: nat, j: nat): (m: nat)
    requires i < j <= |run| && run[i].Create?
    ensures i <= m < j && Uses(run, i, m)
    ensures forall k :: m < k < j ==> !Uses(run, i, k)
  {
    if Uses(run, i, j - 1) then j - 1 else LastUse(run, i, j - 1)
  }

  /** When a session that is still in the table before the j-th event expires. */
  function Deadline(run: seq<Event>, i: nat, j: nat): int
    requires i < j <= |run| && run[i].Create?
  {
    run[LastUse(run, i, j)].now + LIST_SESSION_TTL
  }

  /** No session was created, and so nothing was collected, too long after the last use. */
  predicate InTime(run: seq<Event>, i: nat, j: nat)
    requires i < j <= |run| && run[i].Create?
  {
    forall k :: i < k < j && run[k].Create? ==> run[k].now <= Deadline(run, i, k)
  }

  /** What one event does to one session. */
  lemma StepOnSession(t: Table, e: Event, id: nat)
    requires t.nextID < MAX_UINT64 && id <= t.nextID
    ensures id in Step(t, e).active <==> id in t.active && (e.Create? ==> e.now <= t.active[id].expires)
    ensures id in Step(t, e).active ==>
              Step(t, e).active[id].expires ==
                if e.Lookup? && ParseUint(e.token, 10) == Some(id) then e.now + LIST_SESSION_TTL
                else t.active[id].expires
  {
    assert t.NextID() == t.nextID + 1;
  }

  /**
   When sessions are collected, exactly: a session is still in the table if and only if every
   creation since came within ten minutes of the last use of the session before it. While it
   is there, it expires ten minutes after its last use.
   */
  lemma {:induction false} SurvivesExactlyIf(run: seq<Event>, i: nat, j: nat)
    requires IsRun(run) && i < j <= |run| && run[i].Create?
    ensures var id, t := IssuedID(run, i), TableAt(run, j);
            && (id in t.active <==> InTime(run, i, j))
            && (id in t.active ==> t.active[id].expires == Deadline(run, i, j))
  {
    if i + 1 < j {
      SurvivesExactlyIf(run, i, j - 1);
      NumbersNeverFall(run, i + 1, j - 1);
      NumbersCountUp(run, j - 1);
      StepOnSession(TableAt(run, j - 1), run[j - 1], IssuedID(run, i));
      InTimeSoFar(run, i, j);
      hide Step, InTime;
    }
  }

  lemma InTimeSoFar(run: seq<Event>, i: nat, j: nat)
    requires i + 1 < j <= |run| && run[i].Create?
    ensures InTime(run, i, j) <==>
              InTime(run, i, j - 1) && (run[j - 1].Create? ==> run[j - 1].now <= Deadline(run, i, j - 1))
  {
    hide LastUse, Deadline;
  }

  /** Garbage collection never removes a session that was used within the last ten minutes. */
  lemma {:induction false} RecentSessionsSurvive(run: seq<Event>, i: nat, m: nat, j: nat)
    requires IsRun(run) && i < |run| && run[i].Create? && m < j <= |run| && Uses(run, i, m)
    requires InTime(run, i, m + 1)
    requires forall k :: m < k < j ==> run[k].now <= run[m].now + LIST_SESSION_TTL
    ensures IssuedID(run, i) in TableAt(run, j).active
  {
    SurvivesExactlyIf(run, i, j);
    forall k | i < k < j && run[k].Create? ensures run[k].now <= Deadline(run, i, k) {
      if m < k {
        assert m <= LastUse(run, i, k);
      }
    }
  }

  /**
   What a token stands for, whatever other clients do in between: the positions it was issued
   for while its session is in time, and without any notice the start of the listing after that.
   */
  lemma {:induction false} TokenResumesExactlyIf(run: seq<Event>, i: nat, j: nat)
    requires IsRun(run) && i < j < |run| && run[i].Create?
    ensures TableAt(run, j).Positions(Issued(run, i))
         == if InTime(run, i, j) then (run[i].ov, run[i].bs) else (START, START)
  {
    SurvivesExactlyIf(run, i, j);
    PositionsAreImmutable(run, i, j);
    NumbersCountUp(run, i + 1);
    TokenFindsItsSession(TableAt(run, j), IssuedID(run, i));
  }

  /** Every session in the table was created by some event of the run. */
  lemma {:induction false} SessionsWereIssued(run: seq<Event>, j: nat, id: nat) returns (i: nat)
    requires IsRun(run) && j <= |run| && id in TableAt(run, j).active
    ensures i < j && run[i].Create? && IssuedID(run, i) == id
  {
    NumbersCountUp(run, j - 1);
    StepCounts(TableAt(run, j - 1), run[j - 1]);
    hide Step;
    if id in TableAt(run, j - 1).active {
      i := SessionsWereIssued(run, j - 1, id);
    } else {
      i := j - 1;
    }
  }

  /** The token is some way to write the number of the session of the i-th event, which is still in time. */
  predicate Denotes(run: seq<Event>, j: nat, token: string, i: nat) {
    && i < j <= |run| && run[i].Create?
    && ParseUint(token, 10) == Some(IssuedID(run, i)) && InTime(run, i, j)
  }

  /**
   What any string stands for when it is presented as a token: the positions of the session
   whose number it is a numeral of, leading zeros included, while that session is in time, and
   otherwise the start of the listing.
   */
  lemma {:induction false} AnyTokenResumesExactlyIf(run: seq<Event>, j: nat, token: string)
    requires IsRun(run) && j <= |run|
    ensures forall i: nat :: Denotes(run, j, token, i) ==> TableAt(run, j).Positions(token) == (run[i].ov, run[i].bs)
    ensures (forall i: nat :: !Denotes(run, j, token, i)) ==> TableAt(run, j).Positions(token) == (START, START)
  {
    var t := TableAt(run, j);
    forall i: nat | Denotes(run, j, token, i) ensures t.Positions(token) == (run[i].ov, run[i].bs) {
      SurvivesExactlyIf(run, i, j);
      PositionsAreImmutable(run, i, j);
    }
    if t.Find(token).Some? {
      var i := SessionsWereIssued(run, j, t.Find(token).value);
      SurvivesExactlyIf(run, i, j);
      assert Denotes(run, j, token, i);
    }
  }

  /** A token with leading zeros, which is never handed out, resumes the session of the number it is a numeral of. */
  lemma {:induction false} LeadingZeroResumes(run: seq<Event>, i: nat, j: nat)
    requires IsRun(run) && i < j <= |run| && run[i].Create? && InTime(run, i, j)
    ensures forall k :: 0 <= k < |run| && run[k].Create? ==> Issued(run, k) != "0" + Issued(run, i)
    ensures TableAt(run, j).Positions("0" + Issued(run, i)) == (run[i].ov, run[i].bs)
  {
    var id := IssuedID(run, i);
    NumbersCountUp(run, i + 1);
    LeadingZero(Format(id, 10), 10);
    FormatValue(id, 10);
    assert Denotes(run, j, "0" + Issued(run, i), i);
    AnyTokenResumesExactlyIf(run, j, "0" + Issued(run, i));
    forall k | 0 <= k < |run| && run[k].Create? ensures Issued(run, k) != "0" + Issued(run, i) {
      if Issued(run, k) == "0" + Issued(run, i) {
        FormatValue(IssuedID(run, k), 10);
      }
    }
  }

  /** The shortest run in which a token is handed out and no longer known when it is presented. */
  lemma CollectedTokenRestarts(ov: CursorState, bs: CursorState)
    ensures var late := 10 * 60 * 1_000_000_000 + 1;
            var run := [Create(ov, bs, 0), Create(START, START, late), Lookup("1", late)];
            && IsRun(run) && Issued(run, 0) == "1"
            && TableAt(run, 2).Positions("1") == (START, START)
  {
    var late := LIST_SESSION_TTL + 1;
    var run := [Create(ov, bs, 0), Create(START, START, late), Lookup("1", late)];
    assert TableAt(run, 1) == Step(EMPTY, run[0]) && EMPTY.NextID() == 1;
    assert IssuedID(run, 0) == 1 && Format(1, 10) == "1";
    assert Deadline(run, 0, 1) == LIST_SESSION_TTL;
    assert !InTime(run, 0, 2);
    TokenResumesExactlyIf(run, 0, 2);
  }

  /** A token presented within ten minutes of its creation comes in time. */
  lemma SoonIsInTime(run: seq<Event>, i: nat, j: nat)
    requires IsRun(run) && i < j < |run| && run[i].Create?
    requires run[j].now <= run[i].now + 10 * 60 * 1_000_000_000
    ensures InTime(run, i, j)
  {
    forall k | i < k < j && run[k].Create? ensures run[k].now <= Deadline(run, i, k) {
    }
  }
}
