/** One queue in the queue editor: starting it, adding, removing and reordering its sessions, deleting it. */
module QueueView {
  import opened Wrappers
  import opened Seqs
  import opened QueueSessions

  /** The backend request a handler issues, if any. */
  datatype Command =
    | UpdateQueue(id: string, data: Queue)
    | DeleteQueue(id: string)
    | SetActiveQueue(active: ActiveQueue)
    | NoCommand

  /** The cursor of an active queue points at an existing session and at one of its cycles. */
  predicate CursorInBounds(a: ActiveQueue) {
    0 <= a.sessionIdx < |a.sessions| && 1 <= a.sessionCycle <= a.sessions[a.sessionIdx].cycles
  }

  /** The play button: the queue's fields plus a cursor at its first cycle of its first session, with no emptiness check. */
  function StartQueue(data: Queue): (cmd: Command)
    ensures cmd.SetActiveQueue?
    ensures cmd.active.id == data.id && cmd.active.name == data.name && cmd.active.sessions == data.sessions
    ensures cmd.active.iterations == 1 && cmd.active.sessionIdx == 0 && cmd.active.sessionCycle == 1
  {
    SetActiveQueue(ActiveQueue(data.id, data.name, data.sessions, 1, 0, 1))
  }

  /** The start request carries the queue unchanged and a fresh cursor; that cursor is in bounds exactly when the queue has a session. */
  lemma StartQueueCursor(data: Queue)
    requires data.sessions != [] ==> data.sessions[0].cycles >= 1
    ensures StartQueue(data).SetActiveQueue?
    ensures var a := StartQueue(data).active;
      a.id == data.id && a.name == data.name && a.sessions == data.sessions
      && a.iterations == 1 && a.sessionIdx == 0 && a.sessionCycle == 1
      && (CursorInBounds(a) <==> |data.sessions| > 0)
  {
  }

  /** The queue with `session` appended. */
  function AppendSession(data: Queue, session: QueueSession): (r: Queue)
    ensures r.id == data.id && r.name == data.name
    ensures |r.sessions| == |data.sessions| + 1
    ensures r.sessions[..|data.sessions|] == data.sessions
    ensures r.sessions[|data.sessions|] == session
  {
    data.(sessions := data.sessions + [session])
  }

  /** Keeps the sessions whose id differs from `id`. */
  function OtherId(id: string): QueueSession -> bool {
    (s: QueueSession) => s.id != id
  }

  /** The queue without any session whose id is `id`. */
  function RemoveSessionById(data: Queue, id: string): (r: Queue)
    ensures r.id == data.id && r.name == data.name
    ensures forall s :: s in r.sessions <==> s in data.sessions && s.id != id
    ensures forall s: QueueSession :: s.id != id ==> multiset(r.sessions)[s] == multiset(data.sessions)[s]
  {
    FilterCounts(data.sessions, OtherId(id));
    data.(sessions := Filter(data.sessions, OtherId(id)))
  }

  /** Removing an id that no session carries leaves the queue as it was. */
  lemma RemoveUnknownId(data: Queue, id: string)
    requires forall s :: s in data.sessions ==> s.id != id
    ensures RemoveSessionById(data, id) == data
  {
    FilterKeepsAll(data.sessions, OtherId(id));
  }

  /** Removal keeps the survivors' order: removing from a concatenation removes from each part. */
  lemma RemoveSessionKeepsOrder(q: Queue, a: seq<QueueSession>, b: seq<QueueSession>, id: string)
    requires q.sessions == a + b
    ensures RemoveSessionById(q, id).sessions
         == RemoveSessionById(q.(sessions := a), id).sessions + RemoveSessionById(q.(sessions := b), id).sessions
  {
    FilterConcat(a, b, OtherId(id));
  }

  /** Removing the same id twice is removing it once. */
  lemma RemoveSessionIdempotent(q: Queue, id: string)
    ensures RemoveSessionById(RemoveSessionById(q, id), id) == RemoveSessionById(q, id)
  {
    FilterIdempotent(q.sessions, OtherId(id));
  }

  /** Appending a session and then removing its id undoes the append when the id was new to the queue. */
  lemma AppendThenRemove(q: Queue, s: QueueSession)
    requires forall t :: t in q.sessions ==> t.id != s.id
    ensures RemoveSessionById(AppendSession(q, s), s.id) == q
  {
    FilterConcat(q.sessions, [s], OtherId(s.id));
    FilterKeepsAll(q.sessions, OtherId(s.id));
    assert Filter([s], OtherId(s.id)) == [];
  }

  /** `s` without its element at `i`. */
  function RemoveAt<T>(s: seq<T>, i: nat): (r: seq<T>)
    requires i < |s|
    ensures |r| == |s| - 1
  {
    s[..i] + s[i + 1..]
  }

  /** `s` with `x` placed at index `i`. */
  function InsertAt<T>(s: seq<T>, i: nat, x: T): (r: seq<T>)
    requires i <= |s|
    ensures |r| == |s| + 1
  {
    s[..i] + [x] + s[i..]
  }

  /** The index the moved element lands on: a destination past the end appends. */
  function MoveTarget(n: nat, to: nat): nat
    requires n > 0
  {
    if to < n then to else n - 1
  }

  /** The `array-move` package's immutable move: take the element at `from` out, then insert it at `to`; a `from` outside the array copies it unchanged. */
  function ArrayMove<T>(s: seq<T>, from: nat, to: nat): (r: seq<T>)
    ensures |r| == |s|
    ensures multiset(r) == multiset(s)
    ensures from >= |s| ==> r == s
    ensures from < |s| ==> r[MoveTarget(|s|, to)] == s[from]
    ensures from < |s| ==> RemoveAt(r, MoveTarget(|s|, to)) == RemoveAt(s, from)
  {
    if from >= |s| then s
    else
      var rest := RemoveAt(s, from);
      var t := MoveTarget(|s|, to);
      assert s == s[..from] + [s[from]] + s[from + 1..];
      assert rest == rest[..t] + rest[t..];
      var r := InsertAt(rest, t, s[from]);
      assert r[..t] + r[t + 1..] == rest;
      assert multiset(s) == multiset(rest) + multiset{s[from]};
      assert multiset(r) == multiset(rest[..t]) + multiset{s[from]} + multiset(rest[t..]);
      r
  }

  /** Putting a removed element back where it was gives back the original sequence. */
  lemma RemoveThenInsert<T>(s: seq<T>, i: nat)
    requires i < |s|
    ensures InsertAt(RemoveAt(s, i), i, s[i]) == s
  {
    assert RemoveAt(s, i)[..i] == s[..i];
    assert RemoveAt(s, i)[i..] == s[i + 1..];
  }

  /** Moving an element back from its destination to its source restores the original order. */
  lemma {:induction false} ArrayMoveInverse<T>(s: seq<T>, from: nat, to: nat)
    requires from < |s| && to < |s|
    ensures ArrayMove(ArrayMove(s, from, to), to, from) == s
  {
    var r := ArrayMove(s, from, to);
    assert MoveTarget(|s|, to) == to && MoveTarget(|s|, from) == from;
    assert r[to] == s[from];
    calc {
      ArrayMove(r, to, from);
      InsertAt(RemoveAt(r, to), from, r[to]);
      InsertAt(RemoveAt(s, from), from, s[from]);
      { RemoveThenInsert(s, from); }
      s;
    }
  }

  /** A move is stable: elements before both indices or after both stay put, and those in between shift by one towards the source. */
  lemma ArrayMoveShift<T>(s: seq<T>, from: nat, to: nat, k: nat)
    requires from < |s| && to < |s| && k < |s|
    ensures var r := ArrayMove(s, from, to);
      && (k < from && k < to ==> r[k] == s[k])
      && (k > from && k > to ==> r[k] == s[k])
      && (from <= k < to ==> r[k] == s[k + 1])
      && (to < k <= from ==> r[k] == s[k - 1])
  {
  }

  /** A drop inside the list asks for the queue with its sessions reordered; a drop outside the list asks for nothing. */
  function DragEnd(data: Queue, source: nat, destination: Option<nat>): (cmd: Command)
    ensures destination == None <==> cmd == NoCommand
    ensures destination.Some? ==> cmd == UpdateQueue(data.id, data.(sessions := ArrayMove(data.sessions, source, destination.value)))
  {
    match destination
    case None => NoCommand
    case Some(d) => UpdateQueue(data.id, data.(sessions := ArrayMove(data.sessions, source, d)))
  }

  /** Adding a session asks for the queue with the session appended. */
  function SaveSession(data: Queue, session: QueueSession): (cmd: Command)
    ensures cmd.UpdateQueue? && cmd.id == data.id && cmd.data.id == data.id && cmd.data.name == data.name
    ensures cmd.data.sessions == data.sessions + [session]
  {
    UpdateQueue(data.id, AppendSession(data, session))
  }

  /** The delete icon on a session asks for the queue without that session's id. */
  function RemoveSession(data: Queue, id: string): (cmd: Command)
    ensures cmd.UpdateQueue? && cmd.id == data.id && cmd.data.id == data.id && cmd.data.name == data.name
    ensures forall s :: s in cmd.data.sessions <==> s in data.sessions && s.id != id
    ensures cmd.data == RemoveSessionById(data, id)
  {
    UpdateQueue(data.id, RemoveSessionById(data, id))
  }

  /** An update request for `data` that names it by its id and changes nothing but its sessions. */
  predicate EditsOnlySessions(data: Queue, cmd: Command) {
    cmd.UpdateQueue? && cmd.id == data.id && cmd.data.id == data.id && cmd.data.name == data.name
  }

  /** Every session edit keeps the queue's id and name and is addressed to that id. */
  lemma EditsKeepQueueIdentity(data: Queue, session: QueueSession, id: string, source: nat, destination: nat)
    ensures EditsOnlySessions(data, SaveSession(data, session))
    ensures EditsOnlySessions(data, RemoveSession(data, id))
    ensures EditsOnlySessions(data, DragEnd(data, source, Some(destination)))
    ensures |DragEnd(data, source, Some(destination)).data.sessions| == |data.sessions|
  {
  }

  /** The view's own state cells: whether the session form is open, and whether delete is armed. */
  class QueueViewState {
    const data: Queue
    var viewCreateSession: bool
    var confirmDelete: bool

    constructor (data: Queue)
      ensures this.data == data && !viewCreateSession && !confirmDelete
    {
      this.data := data;
      viewCreateSession := false;
      confirmDelete := false;
    }

    /** The delete button: the first click arms the confirmation, a click while armed deletes the queue. */
    method ClickDelete() returns (cmd: Command)
      modifies this
      ensures cmd == if old(confirmDelete) then DeleteQueue(data.id) else NoCommand
      ensures confirmDelete && viewCreateSession == old(viewCreateSession)
    {
      if confirmDelete {
        cmd := DeleteQueue(data.id);
      } else {
        confirmDelete := true;
        cmd := NoCommand;
      }
    }

    /** The timer set by the first click ran out: delete is disarmed. */
    method ConfirmDeleteExpired()
      modifies this
      ensures !confirmDelete && viewCreateSession == old(viewCreateSession)
    {
      confirmDelete := false;
    }

    /** "Add a session": the form opens. */
    method ShowCreateSession()
      modifies this
      ensures viewCreateSession && confirmDelete == old(confirmDelete)
    {
      viewCreateSession := true;
    }

    /** The form's "Cancel": the form closes and no request is issued. */
    method HideCreateSession()
      modifies this
      ensures !viewCreateSession && confirmDelete == old(confirmDelete)
    {
      viewCreateSession := false;
    }

    /** The form's "Add": the session is appended and the form closes. */
    method SaveFromForm(session: QueueSession) returns (cmd: Command)
      modifies this
      ensures cmd == SaveSession(data, session)
      ensures !viewCreateSession && confirmDelete == old(confirmDelete)
    {
      cmd := SaveSession(data, session);
      viewCreateSession := false;
    }
  }

  /** From a fresh view, the first click on delete issues nothing and the second deletes the queue. */
  method DeleteTakesTwoClicks(data: Queue) returns (first: Command, second: Command)
    ensures first == NoCommand
    ensures second == DeleteQueue(data.id)
  {
    var view := new QueueViewState(data);
    first := view.ClickDelete();
    second := view.ClickDelete();
  }

  /** If the confirmation expires between the clicks, the second click only re-arms it. */
  method ExpiredConfirmationDoesNotDelete(data: Queue) returns (first: Command, second: Command)
    ensures first == NoCommand && second == NoCommand
  {
    var view := new QueueViewState(data);
    first := view.ClickDelete();
    view.ConfirmDeleteExpired();
    second := view.ClickDelete();
  }
}
