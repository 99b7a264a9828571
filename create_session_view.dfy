/** The form that builds a new queue session: two sliders and an optional project. */
module CreateSessionView {
  import opened Wrappers
  import opened QueueSessions

  const DurationMin := 1
  const DurationMax := 90
  const CyclesMin := 1
  const CyclesMax := 16
  const InitialDuration := 25
  const InitialCycles := 1

  /** A session whose duration and cycle count lie within the sliders' ranges. */
  predicate ValidSession(s: QueueSession) {
    DurationMin <= s.duration <= DurationMax && CyclesMin <= s.cycles <= CyclesMax
  }

  /** The value a slider with bounds `lo..hi` reports for a requested position `v`. */
  function SliderValue(v: int, lo: int, hi: int): (r: int)
    requires lo <= hi
    ensures lo <= r <= hi
    ensures lo <= v <= hi ==> r == v
    ensures v < lo ==> r == lo
    ensures hi < v ==> r == hi
  {
    if v < lo then lo else if hi < v then hi else v
  }

  /** The form's three state cells. */
  class SessionForm {
    var duration: int
    var cycles: int
    var projectId: Option<string>

    ghost predicate Valid()
      reads this
    {
      DurationMin <= duration <= DurationMax && CyclesMin <= cycles <= CyclesMax
    }

    constructor ()
      ensures Valid()
      ensures duration == InitialDuration && cycles == InitialCycles && projectId == None
    {
      duration := InitialDuration;
      cycles := InitialCycles;
      projectId := None;
    }

    /** The duration slider's `onChangeEnd`. */
    method SetDuration(minutes: int)
      requires Valid()
      modifies this
      ensures Valid()
      ensures duration == SliderValue(minutes, DurationMin, DurationMax)
      ensures cycles == old(cycles) && projectId == old(projectId)
    {
      duration := SliderValue(minutes, DurationMin, DurationMax);
    }

    /** The cycles slider's `onChangeEnd`. */
    method SetCycles(n: int)
      requires Valid()
      modifies this
      ensures Valid()
      ensures cycles == SliderValue(n, CyclesMin, CyclesMax)
      ensures duration == old(duration) && projectId == old(projectId)
    {
      cycles := SliderValue(n, CyclesMin, CyclesMax);
    }

    /** The project select's `onChange`; clearing it gives `None`. */
    method SetProject(p: Option<string>)
      requires Valid()
      modifies this
      ensures Valid()
      ensures projectId == p
      ensures duration == old(duration) && cycles == old(cycles)
    {
      projectId := p;
    }

    /** The "Add" button: the record handed to `save`, with `id` drawn from the id generator. */
    method Save(id: string) returns (s: QueueSession)
      requires Valid()
      ensures s.id == id && s.duration == duration && s.cycles == cycles && s.projectId == projectId
      ensures ValidSession(s)
    {
      s := QueueSession(id, duration, cycles, projectId);
    }
  }

  /** Whatever the sliders are dragged to, the saved session is within range. */
  method FillAndSave(minutes: int, n: int, p: Option<string>, id: string) returns (s: QueueSession)
    ensures ValidSession(s)
    ensures s.id == id && s.projectId == p
    ensures s.duration == SliderValue(minutes, DurationMin, DurationMax)
    ensures s.cycles == SliderValue(n, CyclesMin, CyclesMax)
  {
    var form := new SessionForm();
    form.SetDuration(minutes);
    form.SetCycles(n);
    form.SetProject(p);
    s := form.Save(id);
  }

  /** Pressing "Add" on an untouched form saves a 25-minute, single-cycle session with no project. */
  method SaveUntouched(id: string) returns (s: QueueSession)
    ensures s == QueueSession(id, 25, 1, None)
    ensures ValidSession(s)
  {
    var form := new SessionForm();
    s := form.Save(id);
  }
}
