/** The main window's sidebar: the list of intents that are not archived, and three content tabs. */
module Sidebar {
  import opened Wrappers
  import opened Seqs
  import opened IntentModel

  /** The three tabs; no other value exists. */
  datatype Tab = IntentsTab | TasksTab | NotesTab

  /** What the content area shows. */
  datatype Content =
    | IntentsList(intents: seq<Intent>)
    | NoIntentsMessage
    | TasksView
    | NotesView

  /** Keeps the intents whose `archived_at` is null. */
  function NotArchived(): Intent -> bool {
    (i: Intent) => i.archivedAt == None
  }

  /** The intents handed to the list: those not archived, in the store's order. */
  function ListedIntents(intents: seq<Intent>): (r: seq<Intent>)
    ensures |r| <= |intents|
    ensures forall i :: i in r <==> i in intents && i.archivedAt == None
    ensures forall i: Intent :: i.archivedAt == None ==> multiset(r)[i] == multiset(intents)[i]
  {
    FilterCounts(intents, NotArchived());
    Filter(intents, NotArchived())
  }

  /** The listed intents keep the store's order: listing distributes over concatenation. */
  lemma ListedIntentsKeepOrder(a: seq<Intent>, b: seq<Intent>)
    ensures ListedIntents(a + b) == ListedIntents(a) + ListedIntents(b)
  {
    FilterConcat(a, b, NotArchived());
  }

  /** When nothing is archived, every intent is listed. */
  lemma NothingArchivedListsAll(intents: seq<Intent>)
    requires forall i :: i in intents ==> i.archivedAt == None
    ensures ListedIntents(intents) == intents
  {
    FilterKeepsAll(intents, NotArchived());
  }

  /** The content area for the current tab: exactly one view. The message appears only for an empty store, so a store of archived intents shows an empty list. */
  function ContentFor(tab: Tab, intents: seq<Intent>): (c: Content)
    ensures c.NoIntentsMessage? <==> tab == IntentsTab && |intents| == 0
    ensures c.IntentsList? <==> tab == IntentsTab && |intents| > 0
    ensures c.IntentsList? ==> c.intents == ListedIntents(intents)
    ensures c.TasksView? <==> tab == TasksTab
    ensures c.NotesView? <==> tab == NotesTab
  {
    match tab
    case IntentsTab => if |intents| > 0 then IntentsList(ListedIntents(intents)) else NoIntentsMessage
    case TasksTab => TasksView
    case NotesTab => NotesView
  }

  /** A store holding only archived intents shows an empty list, not the "no defined intents" message. */
  lemma OnlyArchivedShowsEmptyList(intents: seq<Intent>)
    requires |intents| > 0
    requires forall i :: i in intents ==> i.archivedAt.Some?
    ensures ContentFor(IntentsTab, intents) == IntentsList([])
  {
    FilterKeepsNone(intents, NotArchived());
  }

  /** The sidebar's tab cell. */
  class SidebarState {
    var tab: Tab

    constructor ()
      ensures tab == IntentsTab
    {
      tab := IntentsTab;
    }

    /** A navigation button: the tab becomes the button's own; clicking the current tab changes nothing. */
    method SetTab(t: Tab)
      modifies this
      ensures tab == t
    {
      tab := t;
    }
  }
}
