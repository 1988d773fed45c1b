/** The outbox protocol as a state machine: the tables, every worker's claimed batch, the
    enqueue requests between their check and their insert, and a history that no step reads.

    An action that is refused leaves the state as it is, so `Apply` is total and a run is any
    sequence of actions. Actions of different workers and requests interleave freely. */
module Protocol {
  import opened Domain
  import opened Queue
  import opened Requests

  datatype Attempt = Attempt(id: nat, answer: Answer)

  /** A worker's batch. The claim returns its rows in no particular order, so the next one a
      worker turns to is any of `todo`. */
  datatype Hand = Hand(todo: map<nat, Entry>, current: Option<Attempt>)

  const EMPTY_HAND := Hand(map[], None)

  datatype InFlight = InFlight(ticket: Ticket, version: nat)

  datatype Call = Call(id: nat, sent: Document, answer: Answer)

  /** calls: every call SAP received; origin: the row each log came from; edits: accepted
      edits per item; readAt: the item's edit count when a row's payload was read. */
  datatype History = History(calls: seq<Call>, origin: seq<nat>, edits: seq<nat>, readAt: seq<nat>)

  datatype State = State(db: Tables, hands: map<nat, Hand>, tickets: map<nat, InFlight>, hist: History)

  datatype Action =
    | CreateOrder(number: string, createdBy: string)
    | AddItem(o: nat, code: string, description: string, date: DateText, today: int, promoted: bool)
    | EditItem(o: nat, i: nat, newDescription: Option<string>, newDate: Option<DateText>, today: int)
    | SetStatus(o: nat, next: OrderStatus)
    | Check(req: nat, o: nat, i: nat, today: int)
    | Insert(req: nat, rfc: string)
    | Drop(req: nat)
    | Claim(w: nat, limit: nat, skip: set<nat>)
    | CallSap(w: nat, id: nat, answer: Answer)
    | Close(w: nat, now: int)
    | CloseLost(w: nat)
    | Crash(w: nat)
    | Cancel(o: nat, i: nat, id: nat, now: int)

  const INIT := State(Tables([], [], [], []), map[], map[], History([], [], [], []))

  function HandOf(s: State, w: nat): Hand {
    if w in s.hands then s.hands[w] else EMPTY_HAND
  }

  /** Replaces the tables when the request went through. */
  function Commit(s: State, r: Result<Tables>): State {
    if r.Ok? then s.(db := r.value) else s
  }

  function OneMore(counts: seq<nat>, i: nat): seq<nat> {
    if i < |counts| then counts[i := counts[i] + 1] else counts
  }

  function EditsOf(s: State, i: nat): nat {
    if i < |s.hist.edits| then s.hist.edits[i] else 0
  }

  function DoAddItem(s: State, a: Action): State
    requires a.AddItem?
  {
    var r := AddItemTx(s.db, a.o, a.code, a.description, a.date, a.today, a.promoted);
    if r.Ok? then s.(db := r.value, hist := s.hist.(edits := s.hist.edits + [0])) else s
  }

  function DoEditItem(s: State, a: Action): State
    requires a.EditItem?
  {
    var r := EditItemTx(s.db, a.o, a.i, a.newDescription, a.newDate, None, a.today);
    if r.Ok? then s.(db := r.value, hist := s.hist.(edits := OneMore(s.hist.edits, a.i))) else s
  }

  function DoCheck(s: State, a: Action): State
    requires a.Check?
  {
    var r := CheckEnqueue(s.db, a.o, a.i, a.today);
    if a.req !in s.tickets && r.Ok? then s.(tickets := s.tickets[a.req := InFlight(r.value, EditsOf(s, a.i))]) else s
  }

  function DoInsert(s: State, a: Action): State
    requires a.Insert?
  {
    if a.req !in s.tickets then s
    else
      var k := s.tickets[a.req];
      var done := s.(tickets := s.tickets - {a.req});
      var r := InsertTx(s.db, k.ticket, a.rfc);
      if r.Ok? then done.(db := r.value, hist := s.hist.(readAt := s.hist.readAt + [k.version])) else done
  }

  function Snapshots(rows: seq<Entry>, ids: set<nat>): map<nat, Entry> {
    map x | x in ids && x < |rows| :: rows[x]
  }

  /** A worker claims only when its previous batch is done. `skip` holds the rows that other
      transactions have locked at that moment. */
  function DoClaim(s: State, a: Action): State
    requires a.Claim?
  {
    if HandOf(s, a.w) != EMPTY_HAND then s
    else
      var ids := ClaimIds(s.db.outbox, a.skip, a.limit);
      var rows := ClaimRows(s.db.outbox, ids);
      s.(db := s.db.(outbox := rows), hands := s.hands[a.w := Hand(Snapshots(rows, ids), None)])
  }

  /** A call for a claimed row sends that row's function and payload. */
  function CallFor(id: nat, row: Entry, a: Answer): Call {
    Call(id, Document(row.rfc, row.payload), a)
  }

  function DoCall(s: State, a: Action): State
    requires a.CallSap?
  {
    var h := HandOf(s, a.w);
    if a.id !in h.todo || h.current.Some? then s
    else
      s.(hands := s.hands[a.w := h.(current := Some(Attempt(a.id, a.answer)))],
      hist := s.hist.(calls := s.hist.calls + [CallFor(a.id, h.todo[a.id], a.answer)]))
  }

  /** The worker is done with its current row, whatever became of the transaction. */
  function Released(s: State, w: nat): State {
    var h := HandOf(s, w);
    if h.current.None? then s
    else s.(hands := s.hands[w := Hand(h.todo - {h.current.value.id}, None)])
  }

  function DoClose(s: State, a: Action): State
    requires a.Close?
  {
    var h := HandOf(s, a.w);
    if h.current.None? || h.current.value.id !in h.todo then s
    else
      var cur := h.current.value;
      var r := CloseTx(s.db, cur.id, h.todo[cur.id], cur.answer, a.now);
      var done := Released(s, a.w);
      if r.Ok? then done.(db := r.value, hist := s.hist.(origin := s.hist.origin + [cur.id])) else done
  }

  function Apply(s: State, a: Action): State {
    match a
    case CreateOrder(number, createdBy) => Commit(s, CreateOrderTx(s.db, number, createdBy))
    case AddItem(_, _, _, _, _, _) => DoAddItem(s, a)
    case EditItem(_, _, _, _, _) => DoEditItem(s, a)
    case SetStatus(o, next) => Commit(s, SetStatusTx(s.db, o, Some(next)))
    case Check(_, _, _, _) => DoCheck(s, a)
    case Insert(_, _) => DoInsert(s, a)
    case Drop(req) => s.(tickets := s.tickets - {req})
    case Claim(_, _, _) => DoClaim(s, a)
    case CallSap(_, _, _) => DoCall(s, a)
    case Close(_, _) => DoClose(s, a)
    case CloseLost(w) => Released(s, w)
    case Crash(w) => s.(hands := s.hands - {w})
    case Cancel(o, i, id, now) => Commit(s, CancelTx(s.db, o, i, id, now))
  }

  function Run(s: State, acts: seq<Action>): State
    decreases |acts|
  {
    if acts == [] then s else Run(Apply(s, acts[0]), acts[1..])
  }

  /** No two enqueue requests for one item are between check and insert at once. */
  predicate NoOverlap(s: State) {
    forall r, q :: r in s.tickets && q in s.tickets && r != q ==>
                     s.tickets[r].ticket.itemId != s.tickets[q].ticket.itemId
  }

  predicate SerialRun(s: State, acts: seq<Action>)
    decreases |acts|
  {
    NoOverlap(s) && (acts == [] || SerialRun(Apply(s, acts[0]), acts[1..]))
  }

  lemma {:induction false} RunAppend(s: State, xs: seq<Action>, ys: seq<Action>)
    ensures Run(s, xs + ys) == Run(Run(s, xs), ys)
    decreases |xs|
  {
    if xs == [] {
      assert xs + ys == ys;
    } else {
      assert (xs + ys)[1..] == xs[1..] + ys;
      RunAppend(Apply(s, xs[0]), xs[1..], ys);
    }
  }

  lemma RunOne(s: State, a: Action)
    ensures Run(s, [a]) == Apply(s, a)
  {
    assert [a][1..] == [];
    assert Run(Apply(s, a), []) == Apply(s, a);
  }

  lemma RunTwo(s: State, a: Action, b: Action)
    ensures Run(s, [a, b]) == Apply(Apply(s, a), b)
  {
    RunAppend(s, [a], [b]);
    RunOne(s, a);
    RunOne(Apply(s, a), b);
    assert [a, b] == [a] + [b];
  }
}
