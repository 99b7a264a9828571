/** The queue records exchanged with the backend (the `Queue`, `QueueSession` and `ActiveQueue` bindings). */
module QueueSessions {
  import opened Wrappers

  /** One planned entry of a queue: `duration` minutes, run `cycles` times, optionally tied to a project. */
  datatype QueueSession = QueueSession(id: string, duration: int, cycles: int, projectId: Option<string>)

  /** A named, ordered list of planned sessions. */
  datatype Queue = Queue(id: string, name: string, sessions: seq<QueueSession>)

  /** A started queue: the queue's own fields spread out, plus the progress cursor. */
  datatype ActiveQueue = ActiveQueue(
    id: string,
    name: string,
    sessions: seq<QueueSession>,
    iterations: int,
    sessionIdx: int,
    sessionCycle: int)
}
