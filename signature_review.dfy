/** The administrators' signature review (src/SignatureReview.jsx): signed,
    completed service-hour rows are joined with their students' profiles,
    filtered by search term, trimester, category and grade, and shown as
    cards an administrator can expand or delete. */
module SignatureReview {
  import opened Wrappers
  import opened Text
  import opened Lists

  // =====================================================================
  // Data
  // =====================================================================

  /** A signed, completed `service_hours` row as fetched. Completing an entry
      requires a category, so `category` is always present here. */
  datatype HoursRow = HoursRow(
    id: string,
    userId: string,
    supervisorName: Option<string>,
    trimester: Option<int>,
    category: string)

  /** A `profiles` row as selected: `id, first_name, last_name, grade`. */
  datatype ProfileRow = ProfileRow(id: string, firstName: Option<string>, lastName: Option<string>, grade: Option<int>)

  /** A row with the student's name and grade attached. */
  datatype Signature = Signature(row: HoursRow, studentFirstName: string, studentLastName: string, studentGrade: Option<int>)

  // =====================================================================
  // fetchSignatures
  // =====================================================================

  /** `[...new Set(hoursData.map(record => record.user_id))]`: the
      profiles to ask for, each once (see `KeysOnce`). */
  function UserIds(rows: seq<HoursRow>): seq<string> {
    KeysOnce(rows, (row: HoursRow) => row.userId)
  }

  function ProfileId(p: ProfileRow): string {
    p.id
  }

  /** `profilesMap`, keyed by profile id. */
  function ProfilesMap(profiles: seq<ProfileRow>): map<string, ProfileRow> {
    IndexBy(profiles, ProfileId)
  }

  /** `value || fallback` for a text column. */
  function OrDefault(s: Option<string>, fallback: string): (r: string)
    ensures s.Some? && s.value != "" ==> r == s.value
    ensures s.None? || s.value == "" ==> r == fallback
  {
    if s.Some? && s.value != "" then s.value else fallback
  }

  /** One row of `processedSignatures`. */
  function Attach(row: HoursRow, profiles: map<string, ProfileRow>): Signature {
    if row.userId in profiles then
      var p := profiles[row.userId];
      Signature(row, OrDefault(p.firstName, "Unknown"), OrDefault(p.lastName, ""), p.grade)
    else
      Signature(row, "Unknown", "", None)
  }

  /** `processedSignatures`: every fetched row is kept, in order, with its
      student's name and grade; a missing or empty first name shows
      "Unknown", a missing last name shows nothing, and a student without a
      profile has no grade. */
  function Processed(rows: seq<HoursRow>, profiles: map<string, ProfileRow>): (r: seq<Signature>)
    ensures |r| == |rows|
    ensures forall i :: 0 <= i < |rows| ==> r[i].row == rows[i] && r[i].studentFirstName != ""
    ensures forall i :: 0 <= i < |rows| && rows[i].userId !in profiles ==>
              r[i].studentFirstName == "Unknown" && r[i].studentLastName == "" && r[i].studentGrade.None?
    ensures forall i :: 0 <= i < |rows| && rows[i].userId in profiles ==>
              r[i].studentGrade == profiles[rows[i].userId].grade
    ensures forall i :: 0 <= i < |rows| && rows[i].userId in profiles ==>
              var p := profiles[rows[i].userId];
              (p.firstName.Some? && p.firstName.value != "" ==> r[i].studentFirstName == p.firstName.value)
              && (p.firstName.None? || p.firstName.value == "" ==> r[i].studentFirstName == "Unknown")
              && r[i].studentLastName == p.lastName.GetOr("")
  {
    seq(|rows|, i requires 0 <= i < |rows| => Attach(rows[i], profiles))
  }

  // =====================================================================
  // getFilteredSignatures
  // =====================================================================

  /** The filter selections; each select holds "all" or an option's text. */
  datatype Filters = Filters(trimester: string, category: string, grade: string, searchTerm: string)

  const NoFilters := Filters("all", "all", "all", "")

  /** The search term occurs, ignoring case, in "first last" or in the
      supervisor's name. */
  predicate NameMatch(sig: Signature, searchTerm: string) {
    var term := ToLower(searchTerm);
    Contains(ToLower(sig.studentFirstName + " " + sig.studentLastName), term)
    || Contains(ToLower(sig.row.supervisorName.GetOr("")), term)
  }

  /** `filter === 'all' || value === parseInt(filter)`: a null value or an
      unparsable filter never matches. */
  predicate NumberMatches(value: Option<int>, filter: string) {
    filter == "all" || (value.Some? && value == ParseInt(filter))
  }

  predicate Passes(sig: Signature, f: Filters) {
    NameMatch(sig, f.searchTerm)
    && NumberMatches(sig.row.trimester, f.trimester)
    && (f.category == "all" || sig.row.category == f.category)
    && NumberMatches(sig.studentGrade, f.grade)
  }

  /** `getFilteredSignatures()`: the signatures that pass every filter, in
      their fetched order. */
  function FilteredSignatures(sigs: seq<Signature>, f: Filters): (r: seq<Signature>)
    ensures IsSubsequence(r, sigs)
    ensures forall s :: s in r <==> s in sigs && Passes(s, f)
  {
    Filter(sigs, s => Passes(s, f))
  }

  /** With every select on "all" and an empty search box, every signature is
      listed. */
  lemma NoFiltersListsAll(sigs: seq<Signature>)
    ensures FilteredSignatures(sigs, NoFilters) == sigs
  {
    forall i | 0 <= i < |sigs| ensures Passes(sigs[i], NoFilters) {
      ContainsEmpty(ToLower(sigs[i].studentFirstName + " " + sigs[i].studentLastName));
    }
    FilterAll(sigs, s => Passes(s, NoFilters));
  }

  /** Picking the option for a non-negative number keeps exactly the
      signatures with that number. */
  lemma NumberFilterExact(value: Option<int>, n: nat)
    ensures NumberMatches(value, NatToString(n)) <==> value == Some(n)
  {
    ParseIntOfNatToString(n);
    var s := NatToString(n);
    assert s != "all" by {
      assert IsDigit(s[0]);
    }
  }

  // =====================================================================
  // getUniqueGrades
  // =====================================================================

  /** Some signature's student has grade `g`. */
  predicate HasGrade(sigs: seq<Signature>, g: int) {
    exists i :: 0 <= i < |sigs| && sigs[i].studentGrade == Some(g)
  }

  /** `signatures.map(s => s.student_grade).filter(g => g != null)` */
  function Grades(sigs: seq<Signature>): (r: seq<int>)
    ensures forall g :: g in r <==> HasGrade(sigs, g)
    decreases |sigs|
  {
    if sigs == [] then []
    else
      var init, s := sigs[..|sigs| - 1], sigs[|sigs| - 1];
      var r := Grades(init) + (if s.studentGrade.Some? then [s.studentGrade.value] else []);
      assert forall g :: HasGrade(init, g) ==> HasGrade(sigs, g) by {
        forall g | HasGrade(init, g) ensures HasGrade(sigs, g) {
          var i :| 0 <= i < |init| && init[i].studentGrade == Some(g);
          assert sigs[i] == init[i];
        }
      }
      assert forall g :: HasGrade(sigs, g) ==> HasGrade(init, g) || s.studentGrade == Some(g) by {
        forall g | HasGrade(sigs, g) ensures HasGrade(init, g) || s.studentGrade == Some(g) {
          var i :| 0 <= i < |sigs| && sigs[i].studentGrade == Some(g);
          if i < |init| {
            assert init[i] == sigs[i];
          }
        }
      }
      r
  }

  /** `getUniqueGrades()`: the grades present, each once, ascending. */
  function UniqueGrades(sigs: seq<Signature>): (r: seq<int>)
    ensures StrictlyIncreasing(r)
    ensures forall g :: g in r <==> HasGrade(sigs, g)
  {
    SortDistinctIncreasing(Dedup(Grades(sigs)));
    SortNumbers(Dedup(Grades(sigs)))
  }

  // =====================================================================
  // Labels and colours
  // =====================================================================

  predicate KnownCategory(category: string) {
    category == "in_school" || category == "out_school" || category == "red_hook"
  }

  /** `getCategoryLabel(category)`: a known category has its own display
      name; any other category is shown as it is stored. */
  function CategoryLabel(category: string): (r: string)
    ensures r == category <==> !KnownCategory(category)
    ensures KnownCategory(category) ==> r in {"In-School", "Out-of-School", "Red Hook"}
  {
    if category == "in_school" then "In-School"
    else if category == "out_school" then "Out-of-School"
    else if category == "red_hook" then "Red Hook"
    else category
  }

  const OtherColor := "#718096"

  /** `getCategoryColor(category)`: the three categories have three
      different colours, and every other category shares the neutral one. */
  function CategoryColor(category: string): (r: string)
    ensures r == OtherColor <==> !KnownCategory(category)
  {
    if category == "in_school" then "#d4a574"
    else if category == "out_school" then "#8b6f47"
    else if category == "red_hook" then "#4a5568"
    else OtherColor
  }

  /** The three categories are told apart by colour. */
  lemma CategoryColorsDistinct(a: string, b: string)
    requires KnownCategory(a) && KnownCategory(b) && a != b
    ensures CategoryColor(a) != CategoryColor(b)
  {
  }

  // =====================================================================
  // The page state
  // =====================================================================

  datatype View = NoPermission | LoadingSignatures | Cards(shown: seq<Signature>, grades: seq<int>)

  class ReviewPage {
    var signatures: seq<Signature>
    var expandedCards: set<string>
    var loading: bool

    constructor()
      ensures signatures == [] && expandedCards == {} && loading
    {
      signatures := [];
      expandedCards := {};
      loading := true;
    }

    /** `fetchSignatures()` once the two queries have answered: a failed
        hours query keeps the list; a failed profiles query joins against
        no profiles. */
    method Fetched(hours: Result<seq<HoursRow>, string>, profiles: Option<seq<ProfileRow>>)
      modifies this
      ensures hours.Err? ==> signatures == old(signatures)
      ensures hours.Ok? ==> signatures == Processed(hours.value, ProfilesMap(profiles.GetOr([])))
      ensures expandedCards == old(expandedCards) && !loading
    {
      if hours.Err? {
        loading := false;
        return;
      }
      var m := BuildIndex(profiles.GetOr([]), ProfileId);
      signatures := Processed(hours.value, m);
      loading := false;
    }

    /** `toggleCard(id)`: the card's membership flips and no other card
        changes. */
    method ToggleCard(id: string)
      modifies this
      ensures forall c :: c in expandedCards <==> (c in old(expandedCards)) != (c == id)
      ensures signatures == old(signatures) && loading == old(loading)
    {
      if id in expandedCards {
        expandedCards := expandedCards - {id};
      } else {
        expandedCards := expandedCards + {id};
      }
    }

    /** The state update after a successful delete: the card is no longer
        expanded. */
    method Deleted(id: string)
      modifies this
      ensures expandedCards == old(expandedCards) - {id}
      ensures signatures == old(signatures) && loading == old(loading)
    {
      expandedCards := expandedCards - {id};
    }

    /** What the page renders. */
    function View(isAdmin: bool, f: Filters): (v: View)
      reads this
      ensures v.NoPermission? <==> !isAdmin
      ensures v.LoadingSignatures? <==> isAdmin && loading
      ensures v.Cards? <==> isAdmin && !loading
      ensures v.Cards? ==> v.shown == FilteredSignatures(signatures, f) && v.grades == UniqueGrades(signatures)
    {
      if !isAdmin then NoPermission
      else if loading then LoadingSignatures
      else Cards(FilteredSignatures(signatures, f), UniqueGrades(signatures))
    }
  }
}
