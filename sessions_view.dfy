/** An intent's session history: sessions grouped into days, filtered by a date pattern, and paged. */
module SessionsView {
  import opened Wrappers
  import opened Seqs
  import opened FocusSessions

  /** One day of history: the day's date key, its sessions in input order, and their summed duration in minutes. */
  datatype DayDetail = DayDetail(duration: real, date: string, sessions: seq<Session>)

  // ---------------------------------------------------------------- date filter

  /** JavaScript's `s.split(sep)` for a one-character separator: empty pieces are kept, and `""` splits to `[""]`. */
  function Split(s: string, sep: char): (parts: seq<string>)
    ensures |parts| >= 1
  {
    if s == [] then [""]
    else
      var rest := Split(s[1..], sep);
      if s[0] == sep then [""] + rest else [[s[0]] + rest[0]] + rest[1..]
  }

  /** Array destructuring: the `i`-th piece, or `undefined` past the end. */
  function Piece(parts: seq<string>, i: nat): Option<string> {
    if i < |parts| then Some(parts[i]) else None
  }

  /** A destructured piece is truthy when it exists and is not the empty string. */
  predicate Truthy(piece: Option<string>) {
    piece.Some? && piece.value != ""
  }

  /** A filter component accepts a date component when it is `*` or equals it. */
  predicate ComponentAccepts(f: string, c: Option<string>) {
    f == "*" || c == Some(f)
  }

  /** `handleFilter`: the day itself when the `YYYY-MM-DD` pattern (with `*` wildcards) accepts its date, else nothing. */
  function HandleFilter(filter: string, day: DayDetail): (r: Option<DayDetail>)
    ensures r == None || r == Some(day)
    ensures filter == "" ==> r == Some(day)
  {
    if |filter| == 0 then Some(day)
    else
      var f := Split(filter, '-');
      var fYear, fMonth, fDay := Piece(f, 0), Piece(f, 1), Piece(f, 2);
      if !Truthy(fDay) || !Truthy(fMonth) || !Truthy(fYear) then None
      else
        var d := Split(day.date, '-');
        if !ComponentAccepts(fDay.value, Piece(d, 2)) then None
        else if !ComponentAccepts(fMonth.value, Piece(d, 1)) then None
        else if !ComponentAccepts(fYear.value, Piece(d, 0)) then None
        else Some(day)
  }

  /** A filter with fewer than three pieces, or an empty one among the first three, rejects every day. */
  lemma MalformedFilterRejects(filter: string, day: DayDetail)
    requires filter != ""
    requires var f := Split(filter, '-'); |f| < 3 || f[0] == "" || f[1] == "" || f[2] == ""
    ensures HandleFilter(filter, day) == None
  {
  }

  /** Pieces after the third do not matter: two filters that agree on their first three pieces agree on every day. */
  lemma ExtraPiecesIgnored(f1: string, f2: string, day: DayDetail)
    requires |Split(f1, '-')| >= 3 && |Split(f2, '-')| >= 3
    requires Split(f1, '-')[..3] == Split(f2, '-')[..3]
    ensures HandleFilter(f1, day) == HandleFilter(f2, day)
  {
    assert Split(f1, '-')[0] == Split(f2, '-')[0];
    assert Split(f1, '-')[1] == Split(f2, '-')[1];
    assert Split(f1, '-')[2] == Split(f2, '-')[2];
    assert f1 != "" && f2 != "";
  }

  /** Text without the separator splits into one piece. */
  lemma {:induction false} SplitNoSep(s: string, sep: char)
    requires sep !in s
    ensures Split(s, sep) == [s]
  {
    if s != [] {
      assert sep !in s[1..] by {
        assert forall c :: c in s[1..] ==> c in s;
      }
      SplitNoSep(s[1..], sep);
      assert [s[0]] + s[1..] == s;
    }
  }

  /** Splitting `a + sep + b`, where `a` has no separator, gives `a` followed by the pieces of `b`. */
  lemma {:induction false} SplitJoin(a: string, sep: char, b: string)
    requires sep !in a
    ensures Split(a + [sep] + b, sep) == [a] + Split(b, sep)
  {
    if a == [] {
      assert a + [sep] + b == [sep] + b;
      assert ([sep] + b)[1..] == b;
    } else {
      assert (a + [sep] + b)[1..] == a[1..] + [sep] + b;
      SplitJoin(a[1..], sep, b);
      assert [a[0]] + a[1..] == a;
    }
  }

  /** The date `y-m-d` splits into its three components. */
  lemma SplitDate(y: string, m: string, d: string)
    requires '-' !in y && '-' !in m && '-' !in d
    ensures Split(y + "-" + m + "-" + d, '-') == [y, m, d]
  {
    assert y + "-" + m + "-" + d == y + ['-'] + (m + ['-'] + d);
    SplitJoin(y, '-', m + ['-'] + d);
    SplitJoin(m, '-', d);
    SplitNoSep(d, '-');
  }

  /** On a well-formed date `y-m-d`, a filter `fy-fm-fd` accepts exactly when each component is `*` or equal. */
  lemma FilterOnDate(fy: string, fm: string, fd: string, y: string, m: string, d: string, sessions: seq<Session>, duration: real)
    requires fy != "" && fm != "" && fd != ""
    requires '-' !in fy && '-' !in fm && '-' !in fd && '-' !in y && '-' !in m && '-' !in d
    ensures var day := DayDetail(duration, y + "-" + m + "-" + d, sessions);
      HandleFilter(fy + "-" + fm + "-" + fd, day).Some?
      <==> (fy == "*" || fy == y) && (fm == "*" || fm == m) && (fd == "*" || fd == d)
  {
    SplitDate(fy, fm, fd);
    SplitDate(y, m, d);
  }

  /** The pattern `*-*-*` accepts every day, whatever its date looks like. */
  lemma WildcardAcceptsAll(day: DayDetail)
    ensures HandleFilter("*-*-*", day) == Some(day)
  {
    SplitDate("*", "*", "*");
  }

  /** Keeps the days the filter accepts. */
  function Accepts(filter: string): DayDetail -> bool {
    (day: DayDetail) => HandleFilter(filter, day).Some?
  }

  /** `.filter(handleFilter)`: the accepted days, unchanged and in their original order. */
  function FilterDays(days: seq<DayDetail>, filter: string): (r: seq<DayDetail>)
    ensures forall day :: day in r <==> day in days && HandleFilter(filter, day) == Some(day)
  {
    FilterCounts(days, Accepts(filter));
    Filter(days, Accepts(filter))
  }

  /** An empty filter keeps every day. */
  lemma EmptyFilterKeepsAll(days: seq<DayDetail>)
    ensures FilterDays(days, "") == days
  {
    FilterKeepsAll(days, Accepts(""));
  }

  /** Filtering preserves day order: it distributes over concatenation. */
  lemma FilterDaysKeepsOrder(a: seq<DayDetail>, b: seq<DayDetail>, filter: string)
    ensures FilterDays(a + b, filter) == FilterDays(a, filter) + FilterDays(b, filter)
  {
    FilterConcat(a, b, Accepts(filter));
  }

  // ---------------------------------------------------------------- paging

  /** The view's paging state: it starts at 0 and 25, and no handler in the view calls `setSkip` or `setLimit`. */
  const InitialSkip := 0
  const InitialLimit := 25

  /** How `Array.prototype.slice` resolves an index against a length: negative counts from the end, then clamped. */
  function SliceIndex(i: int, len: nat): (r: nat)
    ensures r <= len
  {
    if i < 0 then (if len + i < 0 then 0 else len + i) else if i > len then len else i
  }

  /** `days.slice(start, end)`: the days from `start` up to but excluding `end`. */
  function Slice<T>(s: seq<T>, start: int, end: int): (r: seq<T>)
    ensures |r| == if SliceIndex(start, |s|) < SliceIndex(end, |s|) then SliceIndex(end, |s|) - SliceIndex(start, |s|) else 0
    ensures forall k :: 0 <= k < |r| ==> r[k] == s[SliceIndex(start, |s|) + k]
  {
    var b, e := SliceIndex(start, |s|), SliceIndex(end, |s|);
    if b < e then s[b..e] else []
  }

  /** `limit` is an end index, not a count: with `skip <= limit <= |days|` the page holds `limit - skip` days, starting at `skip`. */
  lemma PageIsEndIndexed<T>(days: seq<T>, skip: nat, limit: nat)
    requires skip <= limit <= |days|
    ensures |Slice(days, skip, limit)| == limit - skip
    ensures forall k :: 0 <= k < limit - skip ==> Slice(days, skip, limit)[k] == days[skip + k]
  {
  }

  /** Past the end the page is cut short, and a `limit` at or before `skip` gives an empty page. */
  lemma PageBounds<T>(days: seq<T>, skip: nat, limit: nat)
    ensures |Slice(days, skip, limit)| == if skip < limit && skip < |days| then (if limit < |days| then limit else |days|) - skip else 0
  {
  }

  /** With the initial state the view shows the first 25 days, or all of them when there are fewer. */
  lemma InitialPage<T>(days: seq<T>)
    ensures Slice(days, InitialSkip, InitialLimit) == if |days| <= InitialLimit then days else days[..InitialLimit]
  {
    assert days[0..|days|] == days;
  }

  // ---------------------------------------------------------------- grouping by day

  /** Keeps the sessions whose day key is `date`. */
  function OnDate(dayOf: string -> string, date: string): Session -> bool {
    (s: Session) => dayOf(s.finishedAt) == date
  }

  /** The sessions of `date`, in input order. */
  function SessionsOn(sessions: seq<Session>, dayOf: string -> string, date: string): seq<Session> {
    Filter(sessions, OnDate(dayOf, date))
  }

  /** The distinct day keys of `sessions`, in order of first occurrence (the insertion order of a `Map`). */
  function Dates(sessions: seq<Session>, dayOf: string -> string): seq<string> {
    if sessions == [] then []
    else
      var prev := Dates(sessions[..|sessions| - 1], dayOf);
      var date := dayOf(sessions[|sessions| - 1].finishedAt);
      if date in prev then prev else prev + [date]
  }

  /** The group of `date`: its sessions and their total duration in minutes. */
  function DayOf(sessions: seq<Session>, dayOf: string -> string, date: string): DayDetail {
    var group := SessionsOn(sessions, dayOf, date);
    DayDetail(TotalDuration(group) as real / 60.0, date, group)
  }

  /** The groups of the given dates, in the order of `dates`. */
  function Groups(sessions: seq<Session>, dayOf: string -> string, dates: seq<string>): (r: seq<DayDetail>)
    ensures |r| == |dates|
  {
    if dates == [] then []
    else Groups(sessions, dayOf, dates[..|dates| - 1]) + [DayOf(sessions, dayOf, dates[|dates| - 1])]
  }

  /** The `i`-th group is the group of the `i`-th date. */
  lemma {:induction false} GroupsAt(sessions: seq<Session>, dayOf: string -> string, dates: seq<string>, i: nat)
    requires i < |dates|
    ensures Groups(sessions, dayOf, dates)[i] == DayOf(sessions, dayOf, dates[i])
  {
    if i < |dates| - 1 {
      GroupsAt(sessions, dayOf, dates[..|dates| - 1], i);
    }
  }

  /** The history grouped by day: one group per distinct day key, in order of first occurrence. */
  function GroupByDay(sessions: seq<Session>, dayOf: string -> string): seq<DayDetail> {
    Groups(sessions, dayOf, Dates(sessions, dayOf))
  }

  /** Adding one session to the end extends only its own day's sessions. */
  lemma SessionsOnSnoc(sessions: seq<Session>, s: Session, dayOf: string -> string, date: string)
    ensures SessionsOn(sessions + [s], dayOf, date)
         == SessionsOn(sessions, dayOf, date) + (if dayOf(s.finishedAt) == date then [s] else [])
  {
    FilterConcat(sessions, [s], OnDate(dayOf, date));
  }

  /** A session of a day already seen is pushed onto that day's entry, and its minutes are added. */
  function Bump(day: DayDetail, s: Session): DayDetail {
    day.(duration := day.duration + s.duration as real / 60.0, sessions := day.sessions + [s])
  }

  /** A session added to the end joins its own day's group and adds its minutes to it. */
  lemma DayOfSnocSame(sessions: seq<Session>, s: Session, dayOf: string -> string)
    ensures var date := dayOf(s.finishedAt);
      DayOf(sessions + [s], dayOf, date) == Bump(DayOf(sessions, dayOf, date), s)
  {
    var date := dayOf(s.finishedAt);
    SessionsOnSnoc(sessions, s, dayOf, date);
    var g := SessionsOn(sessions, dayOf, date);
    var g' := g + [s];
    assert g'[..|g'| - 1] == g;
    assert TotalDuration(g') == TotalDuration(g) + s.duration;
  }

  /** A session added to the end leaves the groups of other days as they were. */
  lemma DayOfSnocOther(sessions: seq<Session>, s: Session, dayOf: string -> string, date: string)
    requires dayOf(s.finishedAt) != date
    ensures DayOf(sessions + [s], dayOf, date) == DayOf(sessions, dayOf, date)
  {
    SessionsOnSnoc(sessions, s, dayOf, date);
    assert SessionsOn(sessions, dayOf, date) + [] == SessionsOn(sessions, dayOf, date);
  }

  /** A date that no session carries has no sessions. */
  lemma {:induction false} NoSessionsOffDates(sessions: seq<Session>, dayOf: string -> string, date: string)
    requires date !in Dates(sessions, dayOf)
    ensures SessionsOn(sessions, dayOf, date) == []
  {
    if sessions != [] {
      var init := sessions[..|sessions| - 1];
      assert sessions == init + [sessions[|sessions| - 1]];
      NoSessionsOffDates(init, dayOf, date);
      FilterConcat(init, [sessions[|sessions| - 1]], OnDate(dayOf, date));
    }
  }

  /** No day key is listed twice. */
  predicate Distinct(dates: seq<string>) {
    forall i, j :: 0 <= i < j < |dates| ==> dates[i] != dates[j]
  }

  /** The day keys are distinct, every session's day is among them, and no day has an empty group. */
  lemma {:induction false} DatesExact(sessions: seq<Session>, dayOf: string -> string)
    ensures Distinct(Dates(sessions, dayOf))
    ensures forall k :: 0 <= k < |sessions| ==> dayOf(sessions[k].finishedAt) in Dates(sessions, dayOf)
    ensures forall date :: date in Dates(sessions, dayOf) ==> SessionsOn(sessions, dayOf, date) != []
  {
    if sessions != [] {
      var init := sessions[..|sessions| - 1];
      var s := sessions[|sessions| - 1];
      assert sessions == init + [s];
      DatesExact(init, dayOf);
      DatesSnoc(init, s, dayOf);
      forall date | date in Dates(sessions, dayOf)
        ensures SessionsOn(sessions, dayOf, date) != []
      {
        SessionsOnSnoc(init, s, dayOf, date);
      }
      forall k | 0 <= k < |sessions|
        ensures dayOf(sessions[k].finishedAt) in Dates(sessions, dayOf)
      {
        if k < |init| {
          assert sessions[k] == init[k];
        }
      }
    }
  }

  /** Reading more sessions only ever appends day keys: the keys of a prefix are a prefix of the keys, so days are listed in order of first occurrence. */
  lemma {:induction false} DatesGrowByAppending(sessions: seq<Session>, dayOf: string -> string, k: nat)
    requires k <= |sessions|
    ensures Dates(sessions[..k], dayOf) <= Dates(sessions, dayOf)
  {
    if k < |sessions| {
      var init := sessions[..|sessions| - 1];
      assert sessions == init + [sessions[|sessions| - 1]];
      assert init[..k] == sessions[..k];
      DatesGrowByAppending(init, dayOf, k);
      DatesSnoc(init, sessions[|sessions| - 1], dayOf);
    } else {
      assert sessions[..k] == sessions;
    }
  }

  /** The number of sessions listed across some days. */
  function SessionCount(days: seq<DayDetail>): nat {
    if days == [] then 0 else SessionCount(days[..|days| - 1]) + |days[|days| - 1].sessions|
  }

  /** A key listed once in a distinct list occurs exactly once. */
  lemma {:induction false} DistinctOccursOnce(dates: seq<string>, date: string)
    requires Distinct(dates) && date in dates
    ensures multiset(dates)[date] == 1
  {
    var init := dates[..|dates| - 1];
    var last := dates[|dates| - 1];
    assert dates == init + [last];
    assert Distinct(init);
    if last == date {
      assert date !in init;
    } else {
      DistinctOccursOnce(init, date);
    }
  }

  /** One more session adds one to the group of its day for each time that day is listed. */
  lemma {:induction false} SessionCountSnoc(sessions: seq<Session>, s: Session, dayOf: string -> string, dates: seq<string>)
    ensures SessionCount(Groups(sessions + [s], dayOf, dates))
         == SessionCount(Groups(sessions, dayOf, dates)) + multiset(dates)[dayOf(s.finishedAt)]
  {
    if dates != [] {
      var init := dates[..|dates| - 1];
      var last := dates[|dates| - 1];
      assert dates == init + [last];
      SessionCountSnoc(sessions, s, dayOf, init);
      SessionsOnSnoc(sessions, s, dayOf, last);
      var g := Groups(sessions + [s], dayOf, dates);
      assert g[..|g| - 1] == Groups(sessions + [s], dayOf, init);
      var h := Groups(sessions, dayOf, dates);
      assert h[..|h| - 1] == Groups(sessions, dayOf, init);
    }
  }

  /** Every session lands in exactly one day group: the groups hold as many sessions as the input. */
  lemma {:induction false} GroupingCountsEverySession(sessions: seq<Session>, dayOf: string -> string)
    ensures SessionCount(GroupByDay(sessions, dayOf)) == |sessions|
  {
    if sessions != [] {
      var init := sessions[..|sessions| - 1];
      var s := sessions[|sessions| - 1];
      var date := dayOf(s.finishedAt);
      assert sessions == init + [s];
      var seen := Dates(init, dayOf);
      GroupingCountsEverySession(init, dayOf);
      DatesSnoc(init, s, dayOf);
      DatesExact(init, dayOf);
      SessionCountSnoc(init, s, dayOf, seen);
      if date in seen {
        DistinctOccursOnce(seen, date);
      } else {
        var g := Groups(sessions, dayOf, seen + [date]);
        assert (seen + [date])[..|seen|] == seen;
        assert g[..|g| - 1] == Groups(sessions, dayOf, seen);
        NoSessionsOffDates(init, dayOf, date);
        SessionsOnSnoc(init, s, dayOf, date);
      }
    }
  }

  /** The `i`-th day lists exactly the sessions of its date, in input order, with their total in minutes. */
  lemma GroupContents(sessions: seq<Session>, dayOf: string -> string, i: nat)
    requires i < |GroupByDay(sessions, dayOf)|
    ensures var day := GroupByDay(sessions, dayOf)[i];
      && day.date == Dates(sessions, dayOf)[i]
      && day.sessions == Filter(sessions, OnDate(dayOf, day.date))
      && day.duration == TotalDuration(day.sessions) as real / 60.0
      && (forall x :: x in day.sessions <==> x in sessions && dayOf(x.finishedAt) == day.date)
  {
    GroupsAt(sessions, dayOf, Dates(sessions, dayOf), i);
    FilterCounts(sessions, OnDate(dayOf, Dates(sessions, dayOf)[i]));
  }

  /** The map built so far after reading `prefix`: `keys` lists its entries in insertion order, and each entry is its day's group. */
  ghost predicate Indexed(prefix: seq<Session>, dayOf: string -> string, keys: seq<string>, byDate: map<string, DayDetail>) {
    && keys == Dates(prefix, dayOf)
    && (forall date :: date in byDate <==> date in keys)
    && (forall date :: date in byDate ==> byDate[date] == DayOf(prefix, dayOf, date))
  }

  /** Reading one more session adds its day key at the end, unless it was seen before. */
  lemma DatesSnoc(prefix: seq<Session>, s: Session, dayOf: string -> string)
    ensures var date := dayOf(s.finishedAt); var seen := Dates(prefix, dayOf);
      Dates(prefix + [s], dayOf) == if date in seen then seen else seen + [date]
  {
    var next := prefix + [s];
    assert next[..|next| - 1] == prefix;
  }

  /** Updating the entry of the new session's day, and only it, gives the groups after that session. */
  lemma EntriesSnoc(prefix: seq<Session>, s: Session, dayOf: string -> string, byDate: map<string, DayDetail>, entry: DayDetail)
    requires forall d :: d in byDate ==> byDate[d] == DayOf(prefix, dayOf, d)
    requires entry == DayOf(prefix + [s], dayOf, dayOf(s.finishedAt))
    ensures var byDate' := byDate[dayOf(s.finishedAt) := entry];
      forall d :: d in byDate' ==> byDate'[d] == DayOf(prefix + [s], dayOf, d)
  {
    var date := dayOf(s.finishedAt);
    var byDate' := byDate[date := entry];
    forall d | d in byDate'
      ensures byDate'[d] == DayOf(prefix + [s], dayOf, d)
    {
      if d != date {
        DayOfSnocOther(prefix, s, dayOf, d);
      }
    }
  }

  /** Adding a session of a day already in the map keeps the map indexed. */
  lemma IndexedExisting(prefix: seq<Session>, s: Session, dayOf: string -> string, keys: seq<string>, byDate: map<string, DayDetail>)
    requires Indexed(prefix, dayOf, keys, byDate)
    requires dayOf(s.finishedAt) in byDate
    ensures var date := dayOf(s.finishedAt);
      Indexed(prefix + [s], dayOf, keys, byDate[date := Bump(byDate[date], s)])
  {
    var date := dayOf(s.finishedAt);
    DatesSnoc(prefix, s, dayOf);
    assert date in keys;
    assert byDate[date] == DayOf(prefix, dayOf, date);
    DayOfSnocSame(prefix, s, dayOf);
    var byDate' := byDate[date := Bump(byDate[date], s)];
    EntriesSnoc(prefix, s, dayOf, byDate, Bump(byDate[date], s));
    assert byDate'.Keys == byDate.Keys;
    assert Dates(prefix + [s], dayOf) == keys;
    assert forall d :: d in byDate' <==> d in keys;
    assert forall d :: d in byDate' ==> byDate'[d] == DayOf(prefix + [s], dayOf, d);
    assert Indexed(prefix + [s], dayOf, keys, byDate');
  }

  /** Adding a session of a new day appends a fresh entry and keeps the map indexed. */
  lemma IndexedNew(prefix: seq<Session>, s: Session, dayOf: string -> string, keys: seq<string>, byDate: map<string, DayDetail>)
    requires Indexed(prefix, dayOf, keys, byDate)
    requires dayOf(s.finishedAt) !in byDate
    ensures var date := dayOf(s.finishedAt);
      Indexed(prefix + [s], dayOf, keys + [date], byDate[date := DayDetail(s.duration as real / 60.0, date, [s])])
  {
    var date := dayOf(s.finishedAt);
    DatesSnoc(prefix, s, dayOf);
    NoSessionsOffDates(prefix, dayOf, date);
    DayOfSnocSame(prefix, s, dayOf);
    assert TotalDuration([]) == 0;
    assert DayOf(prefix, dayOf, date) == DayDetail(0.0, date, []);
    var entry := DayDetail(s.duration as real / 60.0, date, [s]);
    assert DayOf(prefix + [s], dayOf, date) == entry;
    EntriesSnoc(prefix, s, dayOf, byDate, entry);
    var byDate' := byDate[date := entry];
    assert Dates(prefix + [s], dayOf) == keys + [date];
    assert forall d :: d in byDate' <==> d in keys + [date];
  }

  /** The `days` memo: walk the sessions once, adding each to its day's entry in an insertion-ordered map, then list the entries and filter them. */
  method Days(sessions: seq<Session>, filter: string, dayOf: string -> string) returns (days: seq<DayDetail>)
    ensures days == FilterDays(GroupByDay(sessions, dayOf), filter)
  {
    var keys: seq<string> := [];
    var byDate: map<string, DayDetail> := map[];
    for i := 0 to |sessions|
      invariant Indexed(sessions[..i], dayOf, keys, byDate)
    {
      var s := sessions[i];
      var isoDate := dayOf(s.finishedAt);
      assert sessions[..i + 1] == sessions[..i] + [s];
      if isoDate in byDate {
        IndexedExisting(sessions[..i], s, dayOf, keys, byDate);
        var day := byDate[isoDate];
        byDate := byDate[isoDate := Bump(day, s)];
      } else {
        IndexedNew(sessions[..i], s, dayOf, keys, byDate);
        byDate := byDate[isoDate := DayDetail(s.duration as real / 60.0, isoDate, [s])];
        keys := keys + [isoDate];
      }
    }
    assert sessions[..|sessions|] == sessions;
    var grouped := seq(|keys|, j requires 0 <= j < |keys| => byDate[keys[j]]);
    forall j | 0 <= j < |keys|
      ensures grouped[j] == GroupByDay(sessions, dayOf)[j]
    {
      GroupsAt(sessions, dayOf, keys, j);
    }
    assert grouped == GroupByDay(sessions, dayOf);
    days := FilterDays(grouped, filter);
  }
}
