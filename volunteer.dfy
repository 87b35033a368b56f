/** A member's own service-hour log (src/Volunteer.jsx): the form, the
    checks in front of saving a draft or a completed entry, the record
    sent, the edit guard, the signature canvas's pixel buffer with its
    blankness test and background fill, and the summary sums. */
module Volunteer {
  import opened Wrappers
  import opened Text

  // =====================================================================
  // The signature canvas
  // =====================================================================

  newtype byte = x: int | 0 <= x < 256

  /** `#FAF9F6` with full opacity, one RGBA pixel. */
  const BackgroundRed: byte := 250
  const BackgroundGreen: byte := 249
  const BackgroundBlue: byte := 246
  const BackgroundAlpha: byte := 255

  /** The internal resolution set by `initializeCanvas`. */
  const CanvasWidth := 400
  const CanvasHeight := 150

  /** Pixel `p` of an RGBA buffer is the background colour. */
  predicate BackgroundPixel(s: seq<byte>, p: int)
    requires 0 <= p && 4 * p + 3 < |s|
  {
    s[4 * p] == BackgroundRed && s[4 * p + 1] == BackgroundGreen
    && s[4 * p + 2] == BackgroundBlue && s[4 * p + 3] == BackgroundAlpha
  }

  /** Every pixel of the buffer is the background colour. */
  predicate Blank(s: seq<byte>)
    requires |s| % 4 == 0
  {
    forall p :: 0 <= p < |s| / 4 ==> BackgroundPixel(s, p)
  }

  /** `isCanvasBlank(canvas)`: a missing canvas is blank; otherwise scan the
      buffer four bytes at a time and stop at the first pixel that is not
      the background. */
  method IsCanvasBlank(canvas: array?<byte>) returns (blank: bool)
    requires canvas != null ==> canvas.Length % 4 == 0
    ensures blank <==> canvas == null || Blank(canvas[..])
  {
    if canvas == null {
      return true;
    }
    var i := 0;
    while i < canvas.Length
      invariant 0 <= i <= canvas.Length && i % 4 == 0
      invariant forall p :: 0 <= p < i / 4 ==> BackgroundPixel(canvas[..], p)
    {
      var r, g, b, a := canvas[i], canvas[i + 1], canvas[i + 2], canvas[i + 3];
      if r != 250 || g != 249 || b != 246 || a != 255 {
        assert !BackgroundPixel(canvas[..], i / 4);
        return false;
      }
      i := i + 4;
    }
    return true;
  }

  /** Byte `k` of a background pixel. */
  function BackgroundByte(k: int): byte {
    if k == 0 then BackgroundRed else if k == 1 then BackgroundGreen
    else if k == 2 then BackgroundBlue else BackgroundAlpha
  }

  /** `ctx.fillRect` over the whole canvas with the background colour. */
  method FillBackground(canvas: array<byte>)
    requires canvas.Length % 4 == 0
    modifies canvas
    ensures Blank(canvas[..])
  {
    var i := 0;
    while i < canvas.Length
      invariant 0 <= i <= canvas.Length && i % 4 == 0
      invariant forall j :: 0 <= j < i ==> canvas[j] == BackgroundByte(j % 4)
    {
      canvas[i] := BackgroundRed;
      canvas[i + 1] := BackgroundGreen;
      canvas[i + 2] := BackgroundBlue;
      canvas[i + 3] := BackgroundAlpha;
      i := i + 4;
    }
    forall p | 0 <= p < canvas.Length / 4 ensures BackgroundPixel(canvas[..], p) {
      assert (4 * p) % 4 == 0 && (4 * p + 1) % 4 == 1 && (4 * p + 2) % 4 == 2 && (4 * p + 3) % 4 == 3;
    }
  }

  /** `clearSignature(canvas)`: fill when there is a canvas. */
  method ClearSignature(canvas: array?<byte>)
    requires canvas != null ==> canvas.Length % 4 == 0
    modifies canvas
    ensures canvas != null ==> Blank(canvas[..])
  {
    if canvas != null {
      FillBackground(canvas);
    }
  }

  /** `initializeCanvas`: a buffer of the internal resolution, filled with
      the background. */
  method InitializeCanvas() returns (canvas: array<byte>)
    ensures fresh(canvas)
    ensures canvas.Length == CanvasWidth * CanvasHeight * 4
    ensures Blank(canvas[..])
  {
    canvas := new byte[CanvasWidth * CanvasHeight * 4];
    FillBackground(canvas);
  }

  /** A freshly cleared canvas is found blank: a completed entry always
      needs a stroke after a clear. */
  method ClearedIsBlank(canvas: array<byte>) returns (blank: bool)
    requires canvas.Length % 4 == 0
    modifies canvas
    ensures blank
  {
    ClearSignature(canvas);
    blank := IsCanvasBlank(canvas);
  }

  // =====================================================================
  // The form and the record sent
  // =====================================================================

  datatype Status = InProgress | Completed

  /** The form state. `hours` is the number input's value (`None` when
      empty); every other field is the text of its input. */
  datatype Form = Form(
    hours: Option<real>,
    description: string,
    date: string,
    trimester: string,
    category: string,
    supervisorName: string,
    signature: string,
    status: Status)

  const EmptyForm := Form(None, "", "", "", "", "", "", InProgress)

  /** A `service_hours` row as the page reads and writes it. */
  datatype Entry = Entry(
    hours: Option<real>,
    description: Option<string>,
    date: Option<string>,
    trimester: Option<int>,
    category: Option<string>,
    supervisorName: Option<string>,
    signature: Option<string>,
    status: Status)

  /** `value || null` for a text field. */
  function OrNull(s: string): (r: Option<string>)
    ensures r.None? <==> s == ""
    ensures r.Some? ==> r.value == s
  {
    if s == "" then None else Some(s)
  }

  /** A text column as this form writes it: null or non-empty. */
  predicate Stored(s: Option<string>) {
    s.None? || s.value != ""
  }

  /** Every field `handleSubmit` needs before marking an entry completed. */
  predicate RequiredFilled(form: Form) {
    form.hours.Some? && form.description != "" && form.date != "" && form.trimester != ""
    && form.category != "" && form.supervisorName != ""
  }

  /** `dataToSave` for a request `saveAs`; `canvasBlank` and `canvasImage`
      stand for `isCanvasBlank(canvas)` and `canvas.toDataURL(...)`. */
  function DataToSave(form: Form, saveAs: Status, canvasBlank: bool, canvasImage: string): (r: Entry)
    ensures r.status == saveAs && r.hours == form.hours && r.description == Some(form.description)
    ensures r.date == OrNull(form.date) && r.category == OrNull(form.category)
    ensures r.supervisorName == OrNull(form.supervisorName)
    ensures Stored(r.date) && Stored(r.category) && Stored(r.supervisorName)
    ensures r.trimester == if form.trimester != "" then ParseInt(form.trimester) else None
    ensures saveAs == Completed && !canvasBlank ==> r.signature == Some(canvasImage)
    ensures !(saveAs == Completed && !canvasBlank) ==> r.signature == OrNull(form.signature)
  {
    Entry(
      form.hours,
      Some(form.description),
      OrNull(form.date),
      if form.trimester != "" then ParseInt(form.trimester) else None,
      OrNull(form.category),
      OrNull(form.supervisorName),
      if saveAs == Completed && !canvasBlank then Some(canvasImage) else OrNull(form.signature),
      saveAs)
  }

  /** `handleSubmit(saveAs)`: the completion checks (all fields, positive
      hours, a signature), then the description check that every save
      makes, then the record to send. */
  function Submit(form: Form, saveAs: Status, canvasBlank: bool, canvasImage: string): (r: Result<Entry, string>)
    ensures r.Ok? <==>
              form.description != ""
              && (saveAs == Completed ==> RequiredFilled(form) && form.hours.value > 0.0 && !canvasBlank)
    ensures saveAs == InProgress && form.description == "" ==> r == Err("Please enter a description")
    ensures r.Ok? ==> r.value.status == saveAs
    ensures r.Ok? && saveAs == Completed ==> r.value.signature == Some(canvasImage)
    ensures r.Ok? && saveAs == InProgress ==> r.value.signature == OrNull(form.signature)
    ensures r.Ok? ==> r.value.description == Some(form.description) && r.value.hours == form.hours
    ensures r.Ok? ==> r.value == DataToSave(form, saveAs, canvasBlank, canvasImage)
  {
    if saveAs == Completed && !RequiredFilled(form) then
      Err("Please fill in all required fields to mark as completed")
    else if saveAs == Completed && form.hours.value <= 0.0 then
      Err("Hours must be greater than 0")
    else if saveAs == Completed && canvasBlank then
      Err("Please provide a signature to mark as completed")
    else if form.description == "" then
      Err("Please enter a description")
    else
      Ok(DataToSave(form, saveAs, canvasBlank, canvasImage))
  }

  /** The prefix of `s` before its first `T`: `s.split('T')[0]`. */
  function DatePart(s: string): (r: string)
    ensures IsPrefix(r, s)
    ensures 'T' !in r
    ensures |r| < |s| ==> s[|r|] == 'T'
    decreases |s|
  {
    if s == [] || s[0] == 'T' then [] else [s[0]] + DatePart(s[1..])
  }

  /** `handleEdit`'s form for an entry. */
  function FormOf(entry: Entry): (r: Form)
    ensures r.hours == entry.hours && r.status == entry.status
    ensures 'T' !in r.date
    ensures r.date == if entry.date.Some? then DatePart(entry.date.value) else ""
    ensures entry.trimester.Some? && entry.trimester.value >= 0 ==> ParseInt(r.trimester) == entry.trimester
    ensures entry.trimester.None? ==> r.trimester == ""
    ensures r.description == entry.description.GetOr("") && r.category == entry.category.GetOr("")
    ensures r.supervisorName == entry.supervisorName.GetOr("") && r.signature == entry.signature.GetOr("")
  {
    var trimester := if entry.trimester.Some? then IntToString(entry.trimester.value) else "";
    assert entry.trimester.Some? && entry.trimester.value >= 0 ==> ParseInt(trimester) == entry.trimester by {
      if entry.trimester.Some? && entry.trimester.value >= 0 {
        ParseIntOfNatToString(entry.trimester.value);
      }
    }
    Form(
      entry.hours,
      entry.description.GetOr(""),
      if entry.date.Some? then DatePart(entry.date.value) else "",
      trimester,
      entry.category.GetOr(""),
      entry.supervisorName.GetOr(""),
      entry.signature.GetOr(""),
      entry.status)
  }

  lemma {:induction false} DatePartOfPlainDate(s: string)
    requires 'T' !in s
    ensures DatePart(s) == s
    decreases |s|
  {
    if s != [] {
      DatePartOfPlainDate(s[1..]);
    }
  }

  /** Opening a draft in the form and saving it again as a draft sends back
      the same row: the edit form loses nothing. */
  lemma EditThenSaveDraft(entry: Entry, canvasBlank: bool, canvasImage: string)
    requires entry.status == InProgress
    requires entry.description.Some? && entry.description.value != ""
    requires Stored(entry.date) && Stored(entry.category) && Stored(entry.supervisorName) && Stored(entry.signature)
    requires entry.date.Some? ==> 'T' !in entry.date.value
    requires entry.trimester.Some? ==> entry.trimester.value >= 0
    ensures Submit(FormOf(entry), InProgress, canvasBlank, canvasImage) == Ok(entry)
  {
    var form := FormOf(entry);
    assert form.description == entry.description.value;
    if entry.date.Some? {
      DatePartOfPlainDate(entry.date.value);
    }
    assert OrNull(form.date) == entry.date;
    assert (if form.trimester != "" then ParseInt(form.trimester) else None) == entry.trimester;
    assert OrNull(form.category) == entry.category;
    assert OrNull(form.supervisorName) == entry.supervisorName;
    assert OrNull(form.signature) == entry.signature;
    assert DataToSave(form, InProgress, canvasBlank, canvasImage) == entry;
  }

  // =====================================================================
  // The page state
  // =====================================================================

  class VolunteerPage {
    var form: Form
    var editingId: Option<string>
    var showNewForm: bool

    constructor()
      ensures form == EmptyForm && editingId.None? && !showNewForm
    {
      form := EmptyForm;
      editingId := None;
      showNewForm := false;
    }

    /** `handleEdit(entry)`: a completed entry is refused and nothing
        changes; a draft is loaded into the form. */
    method Edit(id: string, entry: Entry) returns (refused: bool)
      modifies this
      ensures refused <==> entry.status == Completed
      ensures refused ==> form == old(form) && editingId == old(editingId) && showNewForm == old(showNewForm)
      ensures !refused ==> form == FormOf(entry) && editingId == Some(id) && showNewForm
    {
      if entry.status == Completed {
        return true;
      }
      editingId := Some(id);
      showNewForm := true;
      form := FormOf(entry);
      return false;
    }

    /** `resetForm()`: empty form, no entry being edited, form hidden, and
        the canvas (when there is one) cleared. */
    method ResetForm(canvas: array?<byte>)
      requires canvas != null ==> canvas.Length % 4 == 0
      modifies this, canvas
      ensures form == EmptyForm && editingId.None? && !showNewForm
      ensures canvas != null ==> Blank(canvas[..])
    {
      form := EmptyForm;
      editingId := None;
      showNewForm := false;
      ClearSignature(canvas);
    }
  }

  // =====================================================================
  // The summary
  // =====================================================================

  /** `entry.hours || 0` */
  function HoursOf(e: Entry): real {
    e.hours.GetOr(0.0)
  }

  /** `getTotalHours()`: hours of completed entries, missing hours as 0. */
  function TotalHours(entries: seq<Entry>): (r: real)
    ensures (forall i :: 0 <= i < |entries| ==> entries[i].status != Completed) ==> r == 0.0
    ensures (forall i :: 0 <= i < |entries| ==> HoursOf(entries[i]) >= 0.0) ==> r >= 0.0
    decreases |entries|
  {
    if entries == [] then 0.0
    else
      var init, e := entries[..|entries| - 1], entries[|entries| - 1];
      assert forall i :: 0 <= i < |init| ==> init[i] == entries[i];
      TotalHours(init) + (if e.status == Completed then HoursOf(e) else 0.0)
  }

  /** `getCategoryHours(category)` */
  function CategoryHours(entries: seq<Entry>, category: string): (r: real)
    ensures (forall i :: 0 <= i < |entries| ==> entries[i].category != Some(category)) ==> r == 0.0
    ensures (forall i :: 0 <= i < |entries| ==> HoursOf(entries[i]) >= 0.0) ==> 0.0 <= r <= TotalHours(entries)
    decreases |entries|
  {
    if entries == [] then 0.0
    else
      var init, e := entries[..|entries| - 1], entries[|entries| - 1];
      assert forall i :: 0 <= i < |init| ==> init[i] == entries[i];
      CategoryHours(init, category)
        + (if e.status == Completed && e.category == Some(category) then HoursOf(e) else 0.0)
  }

  /** `hours.filter(h => h.status === s)` */
  function WithStatus(entries: seq<Entry>, s: Status): (r: seq<Entry>)
    ensures forall e :: e in r <==> e in entries && e.status == s
    decreases |entries|
  {
    if entries == [] then []
    else
      WithStatus(entries[..|entries| - 1], s)
        + (if entries[|entries| - 1].status == s then [entries[|entries| - 1]] else [])
  }

  /** The in-progress and completed lists split the log. */
  lemma {:induction false} StatusSplit(entries: seq<Entry>)
    ensures |WithStatus(entries, InProgress)| + |WithStatus(entries, Completed)| == |entries|
    decreases |entries|
  {
    if entries != [] {
      StatusSplit(entries[..|entries| - 1]);
    }
  }

  /** Drafts never count: the total is the total of the completed list. */
  lemma {:induction false} TotalIsCompletedTotal(entries: seq<Entry>)
    ensures TotalHours(entries) == TotalHours(WithStatus(entries, Completed))
    decreases |entries|
  {
    if entries != [] {
      var init, e := entries[..|entries| - 1], entries[|entries| - 1];
      TotalIsCompletedTotal(init);
      var w := WithStatus(init, Completed);
      if e.status == Completed {
        assert (w + [e])[..|w|] == w;
      } else {
        assert WithStatus(entries, Completed) == w + [] == w;
      }
    }
  }

  /** When every completed entry has one of the three categories, the
      total is the sum of the three category cards. */
  lemma {:induction false} TotalIsCategorySum(entries: seq<Entry>)
    requires forall e :: e in entries && e.status == Completed ==>
               e.category in {Some("in_school"), Some("out_school"), Some("red_hook")}
    ensures TotalHours(entries)
         == CategoryHours(entries, "in_school") + CategoryHours(entries, "out_school")
          + CategoryHours(entries, "red_hook")
    decreases |entries|
  {
    if entries != [] {
      assert entries[|entries| - 1] in entries;
      TotalIsCategorySum(entries[..|entries| - 1]);
    }
  }
}
