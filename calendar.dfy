/** The shared events calendar (src/Calendar.jsx): a month grid of day
    cells, events grouped under their `YYYY-MM-DD` date keys, month
    stepping, and an event modal that managers use to add and edit events
    and everyone else only to view them. */
module Calendar {
  import opened Wrappers
  import opened Text
  import opened Lists
  import opened Roles

  // =====================================================================
  // The month grid
  // =====================================================================

  /** `days`: `firstDay` empty cells (the weekday of the 1st, Sunday = 0)
      followed by the day numbers 1 to `totalDays`. */
  method MonthGrid(firstDay: nat, totalDays: nat) returns (days: seq<Option<nat>>)
    ensures |days| == firstDay + totalDays
    ensures forall i :: 0 <= i < firstDay ==> days[i].None?
    ensures forall i :: firstDay <= i < |days| ==> days[i] == Some(i - firstDay + 1)
  {
    days := [];
    var i := 0;
    while i < firstDay
      invariant 0 <= i <= firstDay && |days| == i
      invariant forall j :: 0 <= j < i ==> days[j].None?
    {
      days := days + [None];
      i := i + 1;
    }
    var day := 1;
    while day <= totalDays
      invariant 1 <= day <= totalDays + 1 && |days| == firstDay + day - 1
      invariant forall j :: 0 <= j < firstDay ==> days[j].None?
      invariant forall j :: firstDay <= j < |days| ==> days[j] == Some(j - firstDay + 1)
    {
      days := days + [Some(day)];
      day := day + 1;
    }
  }

  // =====================================================================
  // Date keys
  // =====================================================================

  /** `${year}-${String(month + 1).padStart(2, "0")}-${String(day).padStart(2, "0")}`
      with `month` counted from 0. */
  function DateKey(year: int, month: nat, day: nat): (r: string)
    ensures month < 12 && day < 100 ==>
              |r| == |IntToString(year)| + 6 && r[..|r| - 6] == IntToString(year)
              && r[|r| - 6] == '-' && r[|r| - 3] == '-'
  {
    var y, m, d := IntToString(year), Pad2(month + 1), Pad2(day);
    assert month < 12 && day < 100 ==> |m| == 2 && |d| == 2 by {
      if month < 12 && day < 100 {
        Pad2Value(month + 1);
        Pad2Value(day);
      }
    }
    y + "-" + m + "-" + d
  }

  /** A two-digit pad of a number below 100 reads back as that number. */
  lemma Pad2Value(n: nat)
    requires n < 100
    ensures |Pad2(n)| == 2
    ensures DigitsValue(Pad2(n)) == n
  {
    var p := Pad2(n);
    if n < 10 {
      assert p[..1] == "0" && p[..1][..0] == [];
      assert DigitsValue(p[..1]) == 0;
    } else {
      DigitsValueOfNatToString(n);
      assert |NatToString(n)| == 2 by {
        assert NatToString(n) == NatToString(n / 10) + [DigitChar(n % 10)];
      }
    }
  }

  /** Cutting `y-mm-dd` back into its three parts. */
  lemma KeySlices(y: string, m: string, d: string)
    requires |m| == 2 && |d| == 2
    ensures var k := y + "-" + m + "-" + d;
      |k| == |y| + 6 && k[..|y|] == y && k[|y| + 1..|y| + 3] == m && k[|y| + 4..] == d
  {
    var k := y + "-" + m + "-" + d;
    assert k == y + ("-" + m + "-" + d);
    assert k[|y|..] == "-" + m + "-" + d;
    assert k[|y| + 1..] == m + "-" + d;
  }

  /** The three parts of a key of a year from 0 on, read back from its ends. */
  lemma DateKeyParts(year: nat, month: nat, day: nat)
    requires month < 12 && day < 100
    ensures var k := DateKey(year, month, day);
      |k| == |NatToString(year)| + 6
      && DigitsValue(k[..|k| - 6]) == year
      && DigitsValue(k[|k| - 5..|k| - 3]) == month + 1
      && DigitsValue(k[|k| - 2..]) == day
  {
    Pad2Value(month + 1);
    Pad2Value(day);
    DigitsValueOfNatToString(year);
    var y, m, d := NatToString(year), Pad2(month + 1), Pad2(day);
    assert IntToString(year) == y;
    KeySlices(y, m, d);
  }

  /** Different days of a year from 0 on have different keys, so the cell of a
      day finds only that day's events. */
  lemma DateKeyInjective(y1: nat, m1: nat, d1: nat, y2: nat, m2: nat, d2: nat)
    requires m1 < 12 && m2 < 12 && d1 < 100 && d2 < 100
    requires DateKey(y1, m1, d1) == DateKey(y2, m2, d2)
    ensures y1 == y2 && m1 == m2 && d1 == d2
  {
    DateKeyParts(y1, m1, d1);
    DateKeyParts(y2, m2, d2);
  }

  // =====================================================================
  // eventsByDate
  // =====================================================================

  /** An `events` row. `description` may be null. */
  datatype Event = Event(id: string, title: string, category: string, description: Option<string>, eventDate: string)

  /** `events[dateKey] || []` */
  function DayEvents(byDate: map<string, seq<Event>>, key: string): seq<Event> {
    if key in byDate then byDate[key] else []
  }

  /** The grouping of `fetchEvents`, one event at a time. */
  function Grouped(events: seq<Event>): map<string, seq<Event>>
    decreases |events|
  {
    if events == [] then map[]
    else
      var g, e := Grouped(events[..|events| - 1]), events[|events| - 1];
      g[e.eventDate := DayEvents(g, e.eventDate) + [e]]
  }

  /** `eventsByDate`, built by the `forEach` loop. */
  method GroupByDate(events: seq<Event>) returns (byDate: map<string, seq<Event>>)
    ensures byDate == Grouped(events)
  {
    byDate := map[];
    var i := 0;
    while i < |events|
      invariant 0 <= i <= |events|
      invariant byDate == Grouped(events[..i])
    {
      assert events[..i + 1][..i] == events[..i];
      var dateKey := events[i].eventDate;
      if dateKey !in byDate {
        byDate := byDate[dateKey := []];
      }
      byDate := byDate[dateKey := byDate[dateKey] + [events[i]]];
      i := i + 1;
    }
    assert events[..i] == events;
  }

  function OnDate(key: string): Event -> bool {
    (e: Event) => e.eventDate == key
  }

  /** The cell for any key lists exactly the events dated with that key, in
      the fetched order: each event is placed once, under its own date. */
  lemma {:induction false} GroupedIsFilter(events: seq<Event>, key: string)
    ensures DayEvents(Grouped(events), key) == Filter(events, OnDate(key))
    decreases |events|
  {
    if events != [] {
      GroupedIsFilter(events[..|events| - 1], key);
    }
  }

  /** A key has an entry exactly when some event carries that date. */
  lemma {:induction false} GroupedKeys(events: seq<Event>, key: string)
    ensures key in Grouped(events) <==> exists i :: 0 <= i < |events| && events[i].eventDate == key
    decreases |events|
  {
    if events != [] {
      var init := events[..|events| - 1];
      GroupedKeys(init, key);
      if exists i :: 0 <= i < |init| && init[i].eventDate == key {
        var i :| 0 <= i < |init| && init[i].eventDate == key;
        assert events[i] == init[i];
      }
      if exists i :: 0 <= i < |events| && events[i].eventDate == key {
        var i :| 0 <= i < |events| && events[i].eventDate == key;
        if i < |init| {
          assert events[i] == init[i];
        }
      }
    }
  }

  // =====================================================================
  // Month stepping
  // =====================================================================

  /** `new Date(year, month - 1, 1)`: the previous month, from December of the
      year before when `month` is January. */
  function PrevMonth(year: int, month: int): (r: (int, int))
    requires 0 <= month < 12
    ensures 0 <= r.1 < 12
    ensures 12 * r.0 + r.1 == 12 * year + month - 1
  {
    if month == 0 then (year - 1, 11) else (year, month - 1)
  }

  /** `new Date(year, month + 1, 1)`: the next month, into January of the
      next year after December. */
  function NextMonth(year: int, month: int): (r: (int, int))
    requires 0 <= month < 12
    ensures 0 <= r.1 < 12
    ensures 12 * r.0 + r.1 == 12 * year + month + 1
  {
    if month == 11 then (year + 1, 0) else (year, month + 1)
  }

  /** Stepping forward then back, or back then forward, returns to the
      same month. */
  lemma StepsAreInverse(year: int, month: int)
    requires 0 <= month < 12
    ensures PrevMonth(NextMonth(year, month).0, NextMonth(year, month).1) == (year, month)
    ensures NextMonth(PrevMonth(year, month).0, PrevMonth(year, month).1) == (year, month)
  {
  }

  // =====================================================================
  // Labels and colours
  // =====================================================================

  predicate KnownCategory(category: string) {
    category in ["mandatory", "in-school", "out-of-school", "red-hook", "other"]
  }

  /** `getCategoryLabel(category)`: each event category has its own display
      name; any other text is shown as it is. */
  function CategoryLabel(category: string): (r: string)
    ensures r == category <==> !KnownCategory(category)
  {
    if category == "mandatory" then "Mandatory"
    else if category == "in-school" then "In-School"
    else if category == "out-of-school" then "Out-of-School"
    else if category == "red-hook" then "Red Hook"
    else if category == "other" then "Other"
    else category
  }

  /** `getCategoryColor(category)`: unknown categories share the neutral
      colour, which no event category uses. */
  function CategoryColor(category: string): (r: string)
    ensures r == "#718096" <==> !KnownCategory(category)
  {
    if category == "mandatory" then "#c93030"
    else if category == "in-school" then "#d4a574"
    else if category == "out-of-school" then "#7BB274"
    else if category == "red-hook" then "#4a5568"
    else if category == "other" then "grey"
    else "#718096"
  }

  // =====================================================================
  // The event modal
  // =====================================================================

  datatype ModalMode = Add | Edit | ViewOnly

  datatype EventForm = EventForm(title: string, category: string, description: string, eventDate: string)

  /** What `handleSubmit` sends: a new event with its author, or the form for
      the selected event. */
  datatype Request = NoRequest | Insert(form: EventForm, createdBy: Option<string>) | Update(id: string, form: EventForm)

  /** `handleSubmit()`: nothing without a title and a date or in view mode;
      otherwise an insert in add mode and an update in edit mode. */
  function SubmitRequest(form: EventForm, mode: ModalMode, selectedEvent: Option<Event>, userId: Option<string>): (r: Request)
    requires mode == Edit ==> selectedEvent.Some?
    ensures r.Insert? <==> form.title != "" && form.eventDate != "" && mode == Add
    ensures r.Update? <==> form.title != "" && form.eventDate != "" && mode == Edit
    ensures r.Insert? ==> r.form == form && r.createdBy == userId
    ensures r.Update? ==> r.form == form && r.id == selectedEvent.value.id
  {
    if form.title == "" || form.eventDate == "" then NoRequest
    else if mode == Add then Insert(form, userId)
    else if mode == Edit then Update(selectedEvent.value.id, form)
    else NoRequest
  }

  class CalendarPage {
    var year: int
    var month: int
    var events: map<string, seq<Event>>
    var userRole: Option<Role>
    var showModal: bool
    var modalMode: ModalMode
    var selectedDate: Option<string>
    var selectedEvent: Option<Event>
    var formData: EventForm

    /** The month shown is a calendar month, and edit mode always has an
        event to update. */
    predicate Valid()
      reads this
    {
      0 <= month < 12 && (modalMode == Edit ==> selectedEvent.Some?)
    }

    constructor(todayYear: int, todayMonth: int)
      requires 0 <= todayMonth < 12
      ensures Valid() && year == todayYear && month == todayMonth
      ensures events == map[] && userRole.None? && !showModal && modalMode == Add
    {
      year, month := todayYear, todayMonth;
      events := map[];
      userRole := None;
      showModal := false;
      modalMode := Add;
      selectedDate := None;
      selectedEvent := None;
      formData := EventForm("", "other", "", "");
    }

    /** `canManageEvents`: admins and leaders, and no one before the role
        is known. */
    predicate CanManageEvents(): (b: bool)
      reads this
      ensures b <==> userRole.Some? && !userRole.value.Member?
    {
      IsManager(userRole)
    }

    /** `checkUserRole()` once the profile query has answered: `fetched` is
        the role read, or None when there is no signed-in user, the query
        failed or found no profile; only a role read replaces the one held. */
    method RoleChecked(fetched: Option<Role>)
      requires Valid()
      modifies this
      ensures Valid()
      ensures userRole == if fetched.Some? then fetched else old(userRole)
      ensures CanManageEvents() <==> if fetched.Some? then IsManager(fetched) else old(CanManageEvents())
      ensures year == old(year) && month == old(month) && events == old(events) && showModal == old(showModal)
      ensures formData == old(formData) && modalMode == old(modalMode) && selectedEvent == old(selectedEvent)
      ensures selectedDate == old(selectedDate)
    {
      if fetched.Some? {
        userRole := fetched;
      }
    }

    /** `fetchEvents()` once the query has answered; a failed query keeps
        the events shown. */
    method EventsFetched(result: Result<seq<Event>, string>)
      requires Valid()
      modifies this
      ensures Valid()
      ensures result.Ok? ==> events == Grouped(result.value)
      ensures result.Err? ==> events == old(events)
      ensures year == old(year) && month == old(month) && showModal == old(showModal) && userRole == old(userRole)
      ensures formData == old(formData) && modalMode == old(modalMode) && selectedEvent == old(selectedEvent)
      ensures selectedDate == old(selectedDate)
    {
      if result.Ok? {
        events := GroupByDate(result.value);
      }
    }

    /** `handleDayClick(day, e)`: a click on an event bar, or by someone who
        cannot manage events, does nothing; otherwise an empty "other" event
        on that day opens in add mode. */
    method DayClick(day: nat, onEventBar: bool)
      requires Valid()
      modifies this
      ensures Valid()
      ensures onEventBar || !CanManageEvents() ==>
                showModal == old(showModal) && modalMode == old(modalMode) && formData == old(formData)
                && selectedDate == old(selectedDate)
      ensures !onEventBar && CanManageEvents() ==>
                showModal && modalMode == Add && selectedDate == Some(DateKey(year, month as nat, day))
                && formData == EventForm("", "other", "", DateKey(year, month as nat, day))
      ensures year == old(year) && month == old(month) && events == old(events) && userRole == old(userRole)
      ensures selectedEvent == old(selectedEvent)
    {
      if onEventBar || !CanManageEvents() {
        return;
      }
      var dateKey := DateKey(year, month as nat, day);
      selectedDate := Some(dateKey);
      formData := EventForm("", "other", "", dateKey);
      modalMode := Add;
      showModal := true;
    }

    /** `handleEventClick(event, e)`: the event opens in edit mode for a
        manager and in view mode for anyone else. */
    method EventClick(event: Event)
      requires Valid()
      modifies this
      ensures Valid()
      ensures showModal && selectedEvent == Some(event)
      ensures modalMode == if CanManageEvents() then Edit else ViewOnly
      ensures formData == EventForm(event.title, event.category, event.description.GetOr(""), event.eventDate)
      ensures year == old(year) && month == old(month) && events == old(events) && userRole == old(userRole)
      ensures selectedDate == old(selectedDate)
    {
      selectedEvent := Some(event);
      formData := EventForm(event.title, event.category, event.description.GetOr(""), event.eventDate);
      modalMode := if CanManageEvents() then Edit else ViewOnly;
      showModal := true;
    }

    /** `handleSubmit()` and, when the request succeeded, closing the modal. */
    method Submit(userId: Option<string>, succeeded: bool) returns (request: Request)
      requires Valid()
      modifies this
      ensures Valid()
      ensures request == SubmitRequest(formData, modalMode, selectedEvent, userId)
      ensures showModal == (old(showModal) && (request.NoRequest? || !succeeded))
      ensures year == old(year) && month == old(month) && events == old(events) && userRole == old(userRole)
      ensures formData == old(formData) && modalMode == old(modalMode) && selectedEvent == old(selectedEvent)
      ensures selectedDate == old(selectedDate)
    {
      request := SubmitRequest(formData, modalMode, selectedEvent, userId);
      if !request.NoRequest? && succeeded {
        showModal := false;
      }
    }

    /** The overlay, the close button and the Close/Cancel button: the modal
        hides and everything else, the form included, stays as it was. */
    method CloseModal()
      requires Valid()
      modifies this
      ensures Valid() && !showModal
      ensures year == old(year) && month == old(month) && events == old(events) && userRole == old(userRole)
      ensures formData == old(formData) && modalMode == old(modalMode) && selectedEvent == old(selectedEvent)
      ensures selectedDate == old(selectedDate)
    {
      showModal := false;
    }

    /** `prevMonth()` */
    method ShowPrevMonth()
      requires Valid()
      modifies this
      ensures Valid()
      ensures (year, month) == PrevMonth(old(year), old(month))
      ensures events == old(events) && showModal == old(showModal) && userRole == old(userRole)
      ensures formData == old(formData) && modalMode == old(modalMode) && selectedEvent == old(selectedEvent)
      ensures selectedDate == old(selectedDate)
    {
      var (y, m) := PrevMonth(year, month);
      year, month := y, m;
    }

    /** `nextMonth()` */
    method ShowNextMonth()
      requires Valid()
      modifies this
      ensures Valid()
      ensures (year, month) == NextMonth(old(year), old(month))
      ensures events == old(events) && showModal == old(showModal) && userRole == old(userRole)
      ensures formData == old(formData) && modalMode == old(modalMode) && selectedEvent == old(selectedEvent)
      ensures selectedDate == old(selectedDate)
    {
      var (y, m) := NextMonth(year, month);
      year, month := y, m;
    }
  }
}
