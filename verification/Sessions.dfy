/**
 The session table: client-facing list tokens are decimal session numbers that map to the
 resume positions of both backends.
 */
module Sessions {
  import opened Results
  import opened Numbers
  import opened Streams

  /** Ten minutes in nanoseconds. */
  const LIST_SESSION_TTL := 600_000_000_000

  datatype Session = Session(overlay: CursorState, baseline: CursorState, expires: int)

  /** The table as a value; session numbers are unsigned 64-bit numbers. */
  datatype Table = Table(nextID: nat, active: map<nat, Session>) {

    function Find(token: string): Option<nat> {
      match ParseUint(token, 10)
      case Some(id) => if id in active then Some(id) else None
      case None => None
    }

    /** The positions a token stands for; any unknown token stands for the start. */
    function Positions(token: string): (CursorState, CursorState) {
      match Find(token)
      case Some(id) => (active[id].overlay, active[id].baseline)
      case None => (START, START)
    }

    /** The table after a token was looked up: a session in use lives on. */
    function Touched(token: string, now: int): Table {
      match Find(token)
      case Some(id) => Table(nextID, active[id := active[id].(expires := now + LIST_SESSION_TTL)])
      case None => this
    }

    /** The table without its expired sessions. */
    function Collected(now: int): Table {
      Table(nextID, map id | id in active && now <= active[id].expires :: active[id])
    }

    function NextID(): nat {
      (nextID + 1) % (MAX_UINT64 + 1)
    }

    /** The table after a session was created. */
    function Created(ov: CursorState, bs: CursorState, now: int): Table {
      Table(NextID(), Collected(now).active[NextID() := Session(ov, bs, now + LIST_SESSION_TTL)])
    }
  }

  const EMPTY := Table(0, map[])

  class ListSessions {
    var nextID: nat
    var active: map<nat, Session>

    constructor ()
      ensures Value() == EMPTY
    {
      nextID := 0;
      active := map[];
    }

    function Value(): Table
      reads this
    {
      Table(nextID, active)
    }

    method Create(ov: CursorState, bs: CursorState, now: int) returns (token: string)
      modifies this
      ensures Value() == old(Value()).Created(ov, bs, now)
      ensures token == Format(nextID, 10)
    {
      GcLocked(now);
      nextID := (nextID + 1) % (MAX_UINT64 + 1);
      active := active[nextID := Session(ov, bs, now + LIST_SESSION_TTL)];
      token := Format(nextID, 10);
    }

    method Lookup(token: string, now: int) returns (ov: CursorState, bs: CursorState)
      modifies this`active
      ensures (ov, bs) == old(Value()).Positions(token)
      ensures Value() == old(Value()).Touched(token, now)
    {
      if token == "" {
        return START, START;
      }
      match ParseUint(token, 10)
      case None => return START, START;
      case Some(n) =>
        if n !in active {
          return START, START;
        }
        var st := active[n].(expires := now + LIST_SESSION_TTL);
        active := active[n := st];
        return st.overlay, st.baseline;
    }

    method GcLocked(now: int)
      modifies this`active
      ensures Value() == old(Value()).Collected(now)
    {
      var todo := active.Keys;
      while todo != {}
        invariant todo <= active.Keys <= old(active).Keys
        invariant forall id :: id in active ==> active[id] == old(active)[id]
        invariant forall id :: id in old(active) && (id in todo || now <= old(active)[id].expires) ==> id in active
        invariant forall id :: id in active && id !in todo ==> now <= active[id].expires
        decreases todo
      {
        var id :| id in todo;
        todo := todo - {id};
        if now > active[id].expires {
          active := active - {id};
        }
      }
      assert active == old(Value()).Collected(now).active;
    }
  }
}
