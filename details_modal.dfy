/** The details dialog of one intent: its statistics, the archive toggle and a guarded delete. */
module DetailsModal {
  import opened FocusSessions
  import opened IntentModel

  /** The figures the dialog shows for the intent's sessions. */
  datatype Summary = Summary(count: nat, total: int, average: real)

  /** Session count, total duration and the average, which is 0 when there are no sessions instead of a division by zero. */
  function Summarize(sessions: seq<Session>): (r: Summary)
    ensures r.count == |sessions|
    ensures r.total == TotalDuration(sessions)
    ensures r.count == 0 ==> r.total == 0 && r.average == 0.0
    ensures r.count > 0 ==> r.average * r.count as real == r.total as real
  {
    var total := TotalDuration(sessions);
    if |sessions| > 0 then Summary(|sessions|, total, total as real / |sessions| as real)
    else Summary(0, total, 0.0)
  }

  /** When every session lasts between `lo` and `hi`, so does the average. */
  lemma AverageWithinBounds(sessions: seq<Session>, lo: int, hi: int)
    requires |sessions| > 0
    requires forall s :: s in sessions ==> lo <= s.duration <= hi
    ensures lo as real <= Summarize(sessions).average <= hi as real
  {
    TotalDurationBounds(sessions, lo, hi);
    var r := Summarize(sessions);
    AverageBetween(lo, hi, r.count, r.total, r.average);
  }

  /** An average whose `n`-fold total lies between `n` times `lo` and `n` times `hi` lies between `lo` and `hi`. */
  lemma AverageBetween(lo: int, hi: int, n: int, t: int, avg: real)
    requires n > 0 && lo * n <= t <= hi * n
    requires avg * n as real == t as real
    ensures lo as real <= avg <= hi as real
  {
    assert (lo * n) as real == lo as real * n as real;
    assert (hi * n) as real == hi as real * n as real;
  }

  /** Adding a session adds one to the count and its duration to the total. */
  lemma SummaryAfterOneMore(sessions: seq<Session>, s: Session)
    ensures Summarize(sessions + [s]).count == Summarize(sessions).count + 1
    ensures Summarize(sessions + [s]).total == Summarize(sessions).total + s.duration
  {
    assert (sessions + [s])[..|sessions|] == sessions;
  }

  /** The "Archived at" line shows when `archived_at` is truthy: set and not the empty string. */
  predicate ShowsArchivedAt(i: Intent) {
    i.archivedAt.Some? && i.archivedAt.value != ""
  }

  /** The operation the archive button offers. */
  datatype ArchiveAction = Archive | Unarchive

  /** Unarchive for an intent that shows an archive time, Archive for any other. */
  function OfferedAction(i: Intent): (a: ArchiveAction)
    ensures a == Unarchive <==> ShowsArchivedAt(i)
    ensures a == Archive <==> !ShowsArchivedAt(i)
  {
    if ShowsArchivedAt(i) then Unarchive else Archive
  }

  /** Doing what the button offers on the stored intent flips the archive line, given a non-empty archive time. */
  lemma OfferedActionToggles(i: Intent, now: string)
    requires now != ""
    ensures var after := match OfferedAction(i)
        case Archive => UpdatedIntent(i.id, [VObject(ArchivedObject(IntentToObject(i), now))])
        case Unarchive => UpdatedIntent(i.id, [VObject(UnarchivedObject(IntentToObject(i)))]);
      after.Ok? && after.value.id == i.id && (ShowsArchivedAt(after.value) <==> !ShowsArchivedAt(i))
  {
    ArchiveSetsTime(i, now);
    UnarchiveClearsTime(i);
  }

  /** The requests the dialog's buttons issue. */
  datatype ModalCommand =
    | ArchiveIntent(id: string)
    | UnarchiveIntent(id: string)
    | DeleteIntent(id: string)
    | NoCommand

  /** The archive button's request: the offered action on this intent's id. */
  function ArchiveButton(i: Intent): (cmd: ModalCommand)
    ensures cmd == if ShowsArchivedAt(i) then UnarchiveIntent(i.id) else ArchiveIntent(i.id)
  {
    match OfferedAction(i)
    case Archive => ArchiveIntent(i.id)
    case Unarchive => UnarchiveIntent(i.id)
  }

  /** The dialog's own state: whether the delete confirmation is showing. */
  class DetailsModalState {
    const data: Intent
    var viewConfirmDelete: bool

    constructor (data: Intent)
      ensures this.data == data && !viewConfirmDelete
    {
      this.data := data;
      viewConfirmDelete := false;
    }

    /** The delete button: the first click shows "Confirm", a click on "Confirm" deletes the intent. */
    method ClickDelete() returns (cmd: ModalCommand)
      modifies this
      ensures cmd == if old(viewConfirmDelete) then DeleteIntent(data.id) else NoCommand
      ensures viewConfirmDelete
    {
      if viewConfirmDelete {
        cmd := DeleteIntent(data.id);
      } else {
        viewConfirmDelete := true;
        cmd := NoCommand;
      }
    }

    /** The effect's timeout fired: the confirmation is hidden again. */
    method ConfirmExpired()
      modifies this
      ensures !viewConfirmDelete
    {
      viewConfirmDelete := false;
    }
  }

  /** From a fresh dialog, the first click on delete issues nothing and the second deletes the intent. */
  method DeleteTakesTwoClicks(i: Intent) returns (first: ModalCommand, second: ModalCommand)
    ensures first == NoCommand
    ensures second == DeleteIntent(i.id)
  {
    var modal := new DetailsModalState(i);
    first := modal.ClickDelete();
    second := modal.ClickDelete();
  }
}
