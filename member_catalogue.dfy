/** The member catalogue (src/MemberCatalogue.jsx): each member's completed
    service hours are rolled up into a total vector and three per-trimester
    vectors, the selected trimesters are summed, every cell is coloured against
    thresholds that scale with the number of selected trimesters, and the
    roster is filtered, sorted and totalled. */
module MemberCatalogue {
  import opened Wrappers
  import opened Text
  import opened Roles
  import opened Lists

  // =====================================================================
  // Data
  // =====================================================================

  /** A completed `service_hours` row as fetched for the catalogue. `hours` is
      `None` when missing or not numeric; `trimester` is `None` when null. */
  datatype ServiceRecord = ServiceRecord(
    userId: string,
    hours: Option<real>,
    category: string,
    trimester: Option<int>)

  /** `{ inSchool, outSchool, redHook, overall }` */
  datatype HourVector = HourVector(inSchool: real, outSchool: real, redHook: real, overall: real)

  /** The object returned by `calculateMemberHours`. */
  datatype MemberHours = MemberHours(
    total: HourVector,
    trimester1: HourVector,
    trimester2: HourVector,
    trimester3: HourVector)

  const Zero := HourVector(0.0, 0.0, 0.0, 0.0)

  const InSchoolCategory := "in_school"
  const OutSchoolCategory := "out_school"
  const RedHookCategory := "red_hook"

  predicate KnownCategory(category: string) {
    category == InSchoolCategory || category == OutSchoolCategory || category == RedHookCategory
  }

  function Plus(a: HourVector, b: HourVector): HourVector {
    HourVector(a.inSchool + b.inSchool, a.outSchool + b.outSchool,
               a.redHook + b.redHook, a.overall + b.overall)
  }

  /** `parseFloat(record.hours) || 0` */
  function HoursValue(r: ServiceRecord): real {
    r.hours.GetOr(0.0)
  }

  // =====================================================================
  // Reference definitions of the roll-up
  // =====================================================================

  /** Hours of the records whose category is exactly `category`. */
  function CategorySum(recs: seq<ServiceRecord>, category: string): real
    decreases |recs|
  {
    if recs == [] then 0.0
    else
      var last := recs[|recs| - 1];
      CategorySum(recs[..|recs| - 1], category) + (if last.category == category then HoursValue(last) else 0.0)
  }

  /** Hours of every record, whatever its category. */
  function OverallSum(recs: seq<ServiceRecord>): real
    decreases |recs|
  {
    if recs == [] then 0.0 else OverallSum(recs[..|recs| - 1]) + HoursValue(recs[|recs| - 1])
  }

  /** Hours of the records whose category is none of the three known ones. */
  function UnknownCategorySum(recs: seq<ServiceRecord>): real
    decreases |recs|
  {
    if recs == [] then 0.0
    else
      var last := recs[|recs| - 1];
      UnknownCategorySum(recs[..|recs| - 1]) + (if KnownCategory(last.category) then 0.0 else HoursValue(last))
  }

  /** The records logged against trimester `t`, in order. */
  function InTrimester(recs: seq<ServiceRecord>, t: int): seq<ServiceRecord>
    decreases |recs|
  {
    if recs == [] then []
    else
      var last := recs[|recs| - 1];
      InTrimester(recs[..|recs| - 1], t) + (if last.trimester == Some(t) then [last] else [])
  }

  /** The records belonging to one member, in order. */
  function OwnedBy(recs: seq<ServiceRecord>, memberId: string): (r: seq<ServiceRecord>)
    ensures forall x :: x in r <==> x in recs && x.userId == memberId
    decreases |recs|
  {
    if recs == [] then []
    else
      var last := recs[|recs| - 1];
      OwnedBy(recs[..|recs| - 1], memberId) + (if last.userId == memberId then [last] else [])
  }

  /** The vector of a set of records: three category sums and the overall sum. */
  function Vector(recs: seq<ServiceRecord>): HourVector {
    HourVector(CategorySum(recs, InSchoolCategory), CategorySum(recs, OutSchoolCategory),
               CategorySum(recs, RedHookCategory), OverallSum(recs))
  }

  /** The roll-up `calculateMemberHours` is meant to produce. */
  function Rollup(recs: seq<ServiceRecord>): MemberHours {
    MemberHours(Vector(recs), Vector(InTrimester(recs, 1)), Vector(InTrimester(recs, 2)),
                Vector(InTrimester(recs, 3)))
  }

  // =====================================================================
  // calculateMemberHours
  // =====================================================================

  /** One step of the accumulation: the matching category slot and `overall`
      both grow by `h`; an unknown category grows `overall` only. */
  function Credit(v: HourVector, category: string, h: real): HourVector {
    var v' :=
      if category == InSchoolCategory then v.(inSchool := v.inSchool + h)
      else if category == OutSchoolCategory then v.(outSchool := v.outSchool + h)
      else if category == RedHookCategory then v.(redHook := v.redHook + h)
      else v;
    v'.(overall := v'.overall + h)
  }

  lemma VectorSnoc(recs: seq<ServiceRecord>, r: ServiceRecord)
    ensures Vector(recs + [r]) == Credit(Vector(recs), r.category, HoursValue(r))
  {
    assert (recs + [r])[..|recs|] == recs;
  }

  lemma InTrimesterSnoc(recs: seq<ServiceRecord>, r: ServiceRecord, t: int)
    ensures InTrimester(recs + [r], t) == InTrimester(recs, t) + (if r.trimester == Some(t) then [r] else [])
  {
    assert (recs + [r])[..|recs|] == recs;
  }

  /** The vector of trimester `t` (1, 2 or 3) of a roll-up: `hours[trimKey]`. */
  function TrimesterVector(h: MemberHours, t: int): HourVector
    requires 1 <= t <= 3
  {
    if t == 1 then h.trimester1 else if t == 2 then h.trimester2 else h.trimester3
  }

  /** Appending one record to the member's records credits exactly the
      vector of that record's trimester, when it lies in 1..3. */
  lemma TrimesterVectorSnoc(recs: seq<ServiceRecord>, r: ServiceRecord, t: int)
    requires 1 <= t <= 3
    ensures TrimesterVector(Rollup(recs + [r]), t)
         == if r.trimester == Some(t) then Credit(TrimesterVector(Rollup(recs), t), r.category, HoursValue(r))
            else TrimesterVector(Rollup(recs), t)
  {
    InTrimesterSnoc(recs, r, t);
    if r.trimester == Some(t) {
      VectorSnoc(InTrimester(recs, t), r);
    } else {
      assert InTrimester(recs + [r], t) == InTrimester(recs, t) + [] == InTrimester(recs, t);
    }
  }

  /** The effect of one record on a roll-up, as the loop body applies it. */
  function AddRecord(h: MemberHours, r: ServiceRecord): MemberHours {
    var x := HoursValue(r);
    var h' := h.(total := Credit(h.total, r.category, x));
    if r.trimester == Some(1) then h'.(trimester1 := Credit(h.trimester1, r.category, x))
    else if r.trimester == Some(2) then h'.(trimester2 := Credit(h.trimester2, r.category, x))
    else if r.trimester == Some(3) then h'.(trimester3 := Credit(h.trimester3, r.category, x))
    else h'
  }

  lemma RollupSnoc(recs: seq<ServiceRecord>, r: ServiceRecord)
    ensures Rollup(recs + [r]) == AddRecord(Rollup(recs), r)
  {
    VectorSnoc(recs, r);
    TrimesterVectorSnoc(recs, r, 1);
    TrimesterVectorSnoc(recs, r, 2);
    TrimesterVectorSnoc(recs, r, 3);
  }

  /** `calculateMemberHours(memberId)`: filter the member's records, then walk
      them once, crediting the total and, for a trimester in 1..3, that
      trimester's vector. The result is the reference roll-up of the member's
      records. */
  method CalculateMemberHours(volunteerData: seq<ServiceRecord>, memberId: string)
    returns (hours: MemberHours)
    ensures hours == Rollup(OwnedBy(volunteerData, memberId))
  {
    var memberRecords := OwnedBy(volunteerData, memberId);
    hours := MemberHours(Zero, Zero, Zero, Zero);
    assert memberRecords[..0] == [];
    var i := 0;
    while i < |memberRecords|
      invariant 0 <= i <= |memberRecords|
      invariant hours == Rollup(memberRecords[..i])
    {
      ghost var done := memberRecords[..i];
      assert memberRecords[..i + 1] == done + [memberRecords[i]];
      RollupSnoc(done, memberRecords[i]);
      hours := CreditRecord(hours, memberRecords[i]);
      i := i + 1;
    }
    assert memberRecords[..i] == memberRecords;
  }

  /** The `forEach` callback of `calculateMemberHours`: credit the total and,
      for a trimester in 1..3, that trimester's vector. */
  method CreditRecord(hours: MemberHours, record: ServiceRecord) returns (updated: MemberHours)
    ensures updated == AddRecord(hours, record)
  {
    var hoursValue := HoursValue(record);
    updated := hours.(total := Credit(hours.total, record.category, hoursValue));
    if record.trimester.Some? && 1 <= record.trimester.value <= 3 {
      var t := record.trimester.value;
      if t == 1 {
        updated := updated.(trimester1 := Credit(hours.trimester1, record.category, hoursValue));
      } else if t == 2 {
        updated := updated.(trimester2 := Credit(hours.trimester2, record.category, hoursValue));
      } else {
        updated := updated.(trimester3 := Credit(hours.trimester3, record.category, hoursValue));
      }
    }
  }

  // ---------------------------------------------------------------------
  // Properties of the roll-up
  // ---------------------------------------------------------------------

  /** `overall` is accumulated on its own: it is the three category sums plus
      the hours of records whose category is unknown. */
  lemma {:induction false} OverallSplitsByCategory(recs: seq<ServiceRecord>)
    ensures OverallSum(recs)
         == CategorySum(recs, InSchoolCategory) + CategorySum(recs, OutSchoolCategory)
          + CategorySum(recs, RedHookCategory) + UnknownCategorySum(recs)
    decreases |recs|
  {
    if recs != [] {
      OverallSplitsByCategory(recs[..|recs| - 1]);
    }
  }

  lemma {:induction false} InTrimesterMembers(recs: seq<ServiceRecord>, t: int)
    ensures forall x :: x in InTrimester(recs, t) ==> x in recs && x.trimester == Some(t)
    decreases |recs|
  {
    if recs != [] {
      InTrimesterMembers(recs[..|recs| - 1], t);
    }
  }

  lemma {:induction false} UnknownCategorySumZero(recs: seq<ServiceRecord>)
    requires forall r :: r in recs ==> KnownCategory(r.category)
    ensures UnknownCategorySum(recs) == 0.0
    decreases |recs|
  {
    if recs != [] {
      assert recs[|recs| - 1] in recs;
      UnknownCategorySumZero(recs[..|recs| - 1]);
    }
  }

  /** With only the three known categories, every vector of the roll-up has
      `overall == inSchool + outSchool + redHook`. */
  lemma OverallIsCategorySum(recs: seq<ServiceRecord>)
    requires forall r :: r in recs ==> KnownCategory(r.category)
    ensures var v := Vector(recs); v.overall == v.inSchool + v.outSchool + v.redHook
    ensures forall t :: var v := Vector(InTrimester(recs, t)); v.overall == v.inSchool + v.outSchool + v.redHook
  {
    OverallSplitsByCategory(recs);
    UnknownCategorySumZero(recs);
    forall t ensures var v := Vector(InTrimester(recs, t)); v.overall == v.inSchool + v.outSchool + v.redHook {
      OverallSplitsByCategory(InTrimester(recs, t));
      InTrimesterMembers(recs, t);
      UnknownCategorySumZero(InTrimester(recs, t));
    }
  }

  /** A single record with an unknown category makes `overall` exceed the
      category sum: the two are not the same quantity. */
  lemma UnknownCategoryCountsInOverallOnly()
    ensures var v := Vector([ServiceRecord("m", Some(2.0), "tutoring", Some(1))]);
            v.overall == 2.0 && v.inSchool + v.outSchool + v.redHook == 0.0
  {
    var recs := [ServiceRecord("m", Some(2.0), "tutoring", Some(1))];
    assert recs[..0] == [];
  }

  /** A record whose trimester is outside 1..3 changes the total vector and
      none of the three trimester vectors. */
  lemma OutOfRangeTrimesterOnlyInTotal(recs: seq<ServiceRecord>, r: ServiceRecord)
    requires r.trimester.None? || !(1 <= r.trimester.value <= 3)
    ensures var before, after := Rollup(recs), Rollup(recs + [r]);
            && after.total == Credit(before.total, r.category, HoursValue(r))
            && after.trimester1 == before.trimester1
            && after.trimester2 == before.trimester2
            && after.trimester3 == before.trimester3
  {
    VectorSnoc(recs, r);
    TrimesterVectorSnoc(recs, r, 1);
    TrimesterVectorSnoc(recs, r, 2);
    TrimesterVectorSnoc(recs, r, 3);
  }

  /** Records outside trimesters 1..3, in order. */
  function OutsideTrimesters(recs: seq<ServiceRecord>): seq<ServiceRecord>
    decreases |recs|
  {
    if recs == [] then []
    else
      var last := recs[|recs| - 1];
      OutsideTrimesters(recs[..|recs| - 1])
        + (if last.trimester.Some? && 1 <= last.trimester.value <= 3 then [] else [last])
  }

  lemma OutsideSnoc(recs: seq<ServiceRecord>, r: ServiceRecord)
    requires r.trimester.None? || !(1 <= r.trimester.value <= 3)
    ensures OutsideTrimesters(recs + [r]) == OutsideTrimesters(recs) + [r]
  {
    assert (recs + [r])[..|recs|] == recs;
  }

  lemma OutsideSnocInRange(recs: seq<ServiceRecord>, r: ServiceRecord)
    requires r.trimester.Some? && 1 <= r.trimester.value <= 3
    ensures OutsideTrimesters(recs + [r]) == OutsideTrimesters(recs)
  {
    assert (recs + [r])[..|recs|] == recs;
    assert OutsideTrimesters(recs + [r]) == OutsideTrimesters(recs) + [];
  }

  /** The sum of a roll-up's trimester vectors and a vector of the rest. */
  function Partition(h: MemberHours, rest: HourVector): HourVector {
    Plus(Plus(Plus(h.trimester1, h.trimester2), h.trimester3), rest)
  }

  /** Crediting one slot of a partition credits its sum. */
  lemma CreditPartition(h: MemberHours, rest: HourVector, t: int, category: string, x: real)
    ensures t == 1 ==> Partition(h.(trimester1 := Credit(h.trimester1, category, x)), rest) == Credit(Partition(h, rest), category, x)
    ensures t == 2 ==> Partition(h.(trimester2 := Credit(h.trimester2, category, x)), rest) == Credit(Partition(h, rest), category, x)
    ensures t == 3 ==> Partition(h.(trimester3 := Credit(h.trimester3, category, x)), rest) == Credit(Partition(h, rest), category, x)
    ensures Partition(h, Credit(rest, category, x)) == Credit(Partition(h, rest), category, x)
  {
  }

  /** Adding a record keeps `total == Partition(..)`, the rest growing by the
      record exactly when its trimester lies outside 1..3. */
  lemma PartitionStep(h: MemberHours, o: HourVector, r: ServiceRecord)
    requires h.total == Partition(h, o)
    ensures var o' := if r.trimester.Some? && 1 <= r.trimester.value <= 3 then o
                      else Credit(o, r.category, HoursValue(r));
            AddRecord(h, r).total == Partition(AddRecord(h, r), o')
  {
    var c, x := r.category, HoursValue(r);
    if r.trimester == Some(1) {
      CreditPartition(h, o, 1, c, x);
    } else if r.trimester == Some(2) {
      CreditPartition(h, o, 2, c, x);
    } else if r.trimester == Some(3) {
      CreditPartition(h, o, 3, c, x);
    } else {
      CreditPartition(h, o, 0, c, x);
    }
  }

  /** The total vector is the sum of the three trimester vectors and of the
      records outside them. */
  lemma {:induction false} TotalIsTrimestersPlusOutside(recs: seq<ServiceRecord>)
    ensures Rollup(recs).total == Partition(Rollup(recs), Vector(OutsideTrimesters(recs)))
    decreases |recs|
  {
    if recs == [] {
      assert OutsideTrimesters(recs) == [];
    } else {
      var init, last := recs[..|recs| - 1], recs[|recs| - 1];
      assert recs == init + [last];
      TotalIsTrimestersPlusOutside(init);
      RollupSnoc(init, last);
      PartitionStep(Rollup(init), Vector(OutsideTrimesters(init)), last);
      if last.trimester.Some? && 1 <= last.trimester.value <= 3 {
        OutsideSnocInRange(init, last);
      } else {
        OutsideSnoc(init, last);
        VectorSnoc(OutsideTrimesters(init), last);
      }
    }
  }

  // =====================================================================
  // getSelectedHours
  // =====================================================================

  /** Every selected trimester is one of 1, 2, 3. */
  predicate ValidSelection(selected: seq<int>) {
    forall i :: 0 <= i < |selected| ==> 1 <= selected[i] <= 3
  }

  /** The componentwise sum of the selected trimesters' vectors. */
  function SelectedSum(h: MemberHours, selected: seq<int>): HourVector
    requires ValidSelection(selected)
    decreases |selected|
  {
    if selected == [] then Zero
    else Plus(SelectedSum(h, selected[..|selected| - 1]), TrimesterVector(h, selected[|selected| - 1]))
  }

  lemma SelectedSumSnoc(h: MemberHours, selected: seq<int>, t: int)
    requires ValidSelection(selected) && 1 <= t <= 3
    ensures SelectedSum(h, selected + [t]) == Plus(SelectedSum(h, selected), TrimesterVector(h, t))
  {
    assert (selected + [t])[..|selected|] == selected;
  }

  /** `getSelectedHours(memberHours)`: add up, field by field, the vector of
      every selected trimester. */
  method SelectedHours(memberHours: MemberHours, selectedTrimesters: seq<int>)
    returns (selected: HourVector)
    requires ValidSelection(selectedTrimesters)
    ensures selected == SelectedSum(memberHours, selectedTrimesters)
  {
    selected := Zero;
    var i := 0;
    while i < |selectedTrimesters|
      invariant 0 <= i <= |selectedTrimesters|
      invariant selected == SelectedSum(memberHours, selectedTrimesters[..i])
    {
      var v := TrimesterVector(memberHours, selectedTrimesters[i]);
      selected := HourVector(selected.inSchool + v.inSchool, selected.outSchool + v.outSchool,
                             selected.redHook + v.redHook, selected.overall + v.overall);
      assert selectedTrimesters[..i + 1][..i] == selectedTrimesters[..i];
      i := i + 1;
    }
    assert selectedTrimesters[..i] == selectedTrimesters;
  }

  /** The records logged against one of the selected trimesters, in order. */
  function InSelected(recs: seq<ServiceRecord>, selected: seq<int>): seq<ServiceRecord>
    decreases |recs|
  {
    if recs == [] then []
    else
      var last := recs[|recs| - 1];
      InSelected(recs[..|recs| - 1], selected)
        + (if last.trimester.Some? && last.trimester.value in selected then [last] else [])
  }

  lemma InSelectedSnoc(recs: seq<ServiceRecord>, r: ServiceRecord, selected: seq<int>)
    ensures InSelected(recs + [r], selected)
         == InSelected(recs, selected) + (if r.trimester.Some? && r.trimester.value in selected then [r] else [])
  {
    assert (recs + [r])[..|recs|] == recs;
  }

  lemma {:induction false} InSelectedNone(recs: seq<ServiceRecord>)
    ensures InSelected(recs, []) == []
    decreases |recs|
  {
    if recs != [] {
      InSelectedNone(recs[..|recs| - 1]);
    }
  }

  lemma CreditPlus(a: HourVector, b: HourVector, category: string, x: real)
    ensures Credit(Plus(a, b), category, x) == Plus(Credit(a, category, x), b)
    ensures Credit(Plus(a, b), category, x) == Plus(a, Credit(b, category, x))
  {
  }

  /** Selecting one more trimester `t` adds exactly the vector of the records
      logged against `t`. */
  lemma {:induction false} InSelectedAddTrimester(recs: seq<ServiceRecord>, selected: seq<int>, t: int)
    requires t !in selected
    ensures Vector(InSelected(recs, selected + [t]))
         == Plus(Vector(InSelected(recs, selected)), Vector(InTrimester(recs, t)))
    decreases |recs|
  {
    if recs != [] {
      var init, last := recs[..|recs| - 1], recs[|recs| - 1];
      assert recs == init + [last];
      InSelectedAddTrimester(init, selected, t);
      InSelectedSnoc(init, last, selected + [t]);
      InSelectedSnoc(init, last, selected);
      InTrimesterSnoc(init, last, t);
      var a, b := InSelected(init, selected), InTrimester(init, t);
      var c := InSelected(init, selected + [t]);
      var x := HoursValue(last);
      if last.trimester.Some? && last.trimester.value in selected {
        assert last.trimester.value in selected + [t];
        assert InSelected(recs, selected + [t]) == c + [last];
        assert InSelected(recs, selected) == a + [last];
        assert InTrimester(recs, t) == b + [] == b;
        VectorSnoc(c, last);
        VectorSnoc(a, last);
        CreditPlus(Vector(a), Vector(b), last.category, x);
        calc {
          Vector(c + [last]);
          Credit(Vector(c), last.category, x);
          Credit(Plus(Vector(a), Vector(b)), last.category, x);
          Plus(Credit(Vector(a), last.category, x), Vector(b));
          Plus(Vector(a + [last]), Vector(b));
        }
      } else if last.trimester == Some(t) {
        assert last.trimester.value in selected + [t];
        assert InSelected(recs, selected + [t]) == c + [last];
        assert InSelected(recs, selected) == a + [] == a;
        assert InTrimester(recs, t) == b + [last];
        VectorSnoc(c, last);
        VectorSnoc(b, last);
        CreditPlus(Vector(a), Vector(b), last.category, x);
      } else {
        assert !(last.trimester.Some? && last.trimester.value in selected + [t]);
        assert InSelected(recs, selected + [t]) == c + [] == c;
        assert InSelected(recs, selected) == a + [] == a;
        assert InTrimester(recs, t) == b + [] == b;
      }
    }
  }

  /** The selected hours of a member are the hours of that member's records
      logged against a selected trimester, when no trimester is selected
      twice. */
  lemma {:induction false} SelectedSumIsSelectedRecords(recs: seq<ServiceRecord>, selected: seq<int>)
    requires ValidSelection(selected) && Distinct(selected)
    ensures SelectedSum(Rollup(recs), selected) == Vector(InSelected(recs, selected))
    decreases |selected|
  {
    var h := Rollup(recs);
    if selected == [] {
      InSelectedNone(recs);
      assert Vector([]) == Zero;
    } else {
      var init, t := selected[..|selected| - 1], selected[|selected| - 1];
      assert selected == init + [t];
      assert t !in init;
      SelectedSumIsSelectedRecords(recs, init);
      InSelectedAddTrimester(recs, init, t);
      assert TrimesterVector(h, t) == Vector(InTrimester(recs, t));
      assert SelectedSum(h, selected) == Plus(SelectedSum(h, init), TrimesterVector(h, t));
    }
  }

  lemma {:induction false} NoneOutside(recs: seq<ServiceRecord>)
    requires forall r :: r in recs ==> r.trimester.Some? && 1 <= r.trimester.value <= 3
    ensures OutsideTrimesters(recs) == []
    decreases |recs|
  {
    if recs != [] {
      assert recs[|recs| - 1] in recs;
      NoneOutside(recs[..|recs| - 1]);
    }
  }

  /** Summing all three trimesters of a roll-up whose total is its trimester
      vectors' sum gives that total. */
  lemma SelectAllOf(h: MemberHours)
    requires h.total == Partition(h, Zero)
    ensures SelectedSum(h, [1, 2, 3]) == h.total
  {
    assert [1] == [] + [1];
    SelectedSumSnoc(h, [], 1);
    SelectedSumSnoc(h, [1], 2);
    SelectedSumSnoc(h, [1, 2], 3);
  }

  /** With every record in trimesters 1..3, selecting all three trimesters
      gives the total vector. */
  lemma SelectAllIsTotal(recs: seq<ServiceRecord>)
    requires forall r :: r in recs ==> r.trimester.Some? && 1 <= r.trimester.value <= 3
    ensures SelectedSum(Rollup(recs), [1, 2, 3]) == Rollup(recs).total
  {
    TotalIsTrimestersPlusOutside(recs);
    NoneOutside(recs);
    assert Vector([]) == Zero;
    SelectAllOf(Rollup(recs));
  }

  // =====================================================================
  // getHourColor / getTotalColor
  // =====================================================================

  /** The colours of the hours table. */
  datatype Colour =
    | DarkRed    // #8B0000: no hours in the category
    | Grey       // #808080: some hours, but under the threshold
    | Green      // #28a745: at or over the threshold
    | Black      // #000: not an hours column
    | LightGrey  // #D3D3D3: no hours at all

  const InSchoolField := "inSchool"
  const OutSchoolField := "outSchool"
  const RedHookField := "redHook"

  /** Hours a category requires per selected trimester. */
  function Requirement(field: string): real {
    if field == RedHookField then 3.0 else 5.0
  }

  const TotalRequirement := 15.0

  /** `getHourColor(value, category)` with `k` trimesters selected. */
  /** A category cell is dark red, grey or green, and which one depends
      only on whether the value is zero, strictly between zero and the
      threshold, or anything else; an unknown field is black. */
  function HourColor(value: real, field: string, k: nat): (r: Colour)
    ensures field !in {InSchoolField, OutSchoolField, RedHookField} ==> r == Black
    ensures field in {InSchoolField, OutSchoolField, RedHookField} ==>
              && (r == DarkRed <==> value == 0.0)
              && (r == Grey <==> 0.0 < value < Requirement(field) * k as real)
              && r in {DarkRed, Grey, Green}
  {
    if field == InSchoolField || field == OutSchoolField || field == RedHookField then
      var threshold := Requirement(field) * k as real;
      if value == 0.0 then DarkRed
      else if value > 0.0 && value < threshold then Grey
      else Green
    else Black
  }

  /** `getTotalColor(hours)` with `k` trimesters selected. The total cell
      is light grey exactly when there are no hours, and green exactly when
      there are some, none of the three category cells is grey (a category
      with no hours does not hold the total back) and the overall hours
      reach the total threshold; otherwise it is grey. */
  function TotalColor(hours: HourVector, k: nat): (r: Colour)
    ensures r == LightGrey <==> hours.overall == 0.0
    ensures r == Green <==>
              && hours.overall != 0.0
              && HourColor(hours.inSchool, InSchoolField, k) != Grey
              && HourColor(hours.outSchool, OutSchoolField, k) != Grey
              && HourColor(hours.redHook, RedHookField, k) != Grey
              && hours.overall >= TotalRequirement * k as real
    ensures r in {LightGrey, Grey, Green}
  {
    var multiplier := k as real;
    if hours.overall == 0.0 then LightGrey
    else if (hours.inSchool > 0.0 && hours.inSchool < 5.0 * multiplier)
         || (hours.outSchool > 0.0 && hours.outSchool < 5.0 * multiplier)
         || (hours.redHook > 0.0 && hours.redHook < 3.0 * multiplier) then Grey
    else if hours.overall < TotalRequirement * multiplier then Grey
    else Green
  }

  /** Selecting fewer trimesters lowers every threshold: a green cell stays
      green and a green total stays green. */
  lemma FewerTrimestersKeepGreen(hours: HourVector, field: string, value: real, j: nat, k: nat)
    requires j <= k
    ensures HourColor(value, field, k) == Green ==> HourColor(value, field, j) == Green
    ensures TotalColor(hours, k) == Green ==> TotalColor(hours, j) == Green
  {
    assert j as real <= k as real;
  }

  /** Four in-school, six out-of-school, two Red Hook and twelve overall hours
      over two selected trimesters: every cell and the total are grey. */
  lemma TwoTrimesterExample()
    ensures var v := HourVector(4.0, 6.0, 2.0, 12.0);
            && HourColor(v.inSchool, InSchoolField, 2) == Grey
            && HourColor(v.outSchool, OutSchoolField, 2) == Grey
            && HourColor(v.redHook, RedHookField, 2) == Grey
            && TotalColor(v, 2) == Grey
  {
  }

  // =====================================================================
  // toggleTrimester / toggleGrade
  // =====================================================================

  /** `prev.filter(t => t !== x)` */
  function Without(s: seq<int>, x: int): (r: seq<int>)
    ensures forall y :: y in r <==> y in s && y != x
    decreases |s|
  {
    if s == [] then []
    else Without(s[..|s| - 1], x) + (if s[|s| - 1] == x then [] else [s[|s| - 1]])
  }

  lemma {:induction false} WithoutIncreasing(s: seq<int>, x: int)
    requires StrictlyIncreasing(s)
    ensures StrictlyIncreasing(Without(s, x))
    decreases |s|
  {
    if s != [] {
      var init, last := s[..|s| - 1], s[|s| - 1];
      WithoutIncreasing(init, x);
      var w := Without(init, x);
      forall i | 0 <= i < |w| ensures w[i] < last {
        assert w[i] in init;
      }
    }
  }

  /** The state update of `toggleTrimester` and `toggleGrade`: exactly the
      toggled value changes membership. */
  function Toggle(prev: seq<int>, x: int): (r: seq<int>)
    ensures forall y :: y in r <==> (y in prev) != (y == x)
  {
    if x in prev then Without(prev, x)
    else
      var r := SortNumbers(prev + [x]);
      assert forall y :: y in r <==> y in multiset(r);
      assert forall y :: y in prev + [x] <==> y in prev || y == x;
      r
  }

  /** Toggling keeps the selection ascending and without repeats. */
  lemma ToggleFlips(prev: seq<int>, x: int)
    requires StrictlyIncreasing(prev)
    ensures StrictlyIncreasing(Toggle(prev, x))
  {
    if x in prev {
      WithoutIncreasing(prev, x);
    } else {
      assert prev + [x] == (prev + [x])[..|prev|] + [x];
      assert (prev + [x])[..|prev|] == prev;
      SortIncreasing(prev);
      InsertIncreasing(prev, x);
      assert Toggle(prev, x) == Insert(prev, x);
    }
  }

  /** Toggling the same value twice restores the selection. */
  lemma ToggleTwice(prev: seq<int>, x: int)
    requires StrictlyIncreasing(prev)
    ensures Toggle(Toggle(prev, x), x) == prev
  {
    ToggleFlips(prev, x);
    ToggleFlips(Toggle(prev, x), x);
    IncreasingUnique(Toggle(Toggle(prev, x), x), prev);
  }

  // =====================================================================
  // toggleSort, getDefaultTrimesters, dropdown labels
  // =====================================================================

  datatype SortKey = ByName | ByTotal | ByGrade | ByInSchool | ByOutSchool | ByRedHook
  datatype SortOrder = Asc | Desc
  datatype SortState = SortState(sortBy: SortKey, sortOrder: SortOrder)

  const InitialSort := SortState(ByName, Asc)

  /** `toggleSort(newSortBy)`: a click on the current column flips the
      direction, a click on another column sorts by it ascending. */
  function ToggleSort(s: SortState, newSortBy: SortKey): (r: SortState)
    ensures r.sortBy == newSortBy
    ensures s.sortBy == newSortBy ==> r.sortOrder != s.sortOrder
    ensures s.sortBy != newSortBy ==> r.sortOrder == Asc
  {
    if s.sortBy == newSortBy then s.(sortOrder := if s.sortOrder == Asc then Desc else Asc)
    else SortState(newSortBy, Asc)
  }

  /** Two clicks on the current column restore the sort; two clicks on a new
      column sort by it descending. */
  lemma ToggleSortTwice(s: SortState, k: SortKey)
    ensures s.sortBy == k ==> ToggleSort(ToggleSort(s, k), k) == s
    ensures s.sortBy != k ==> ToggleSort(ToggleSort(s, k), k) == SortState(k, Desc)
  {
  }

  /** `getDefaultTrimesters()` for `month` = `getMonth() + 1`: the trimesters
      begun by that point of the school year (September to December: the
      first; January and February: the first two; March to August: all
      three); any other month number selects the first. */
  function DefaultTrimesters(month: int): (r: seq<int>)
    ensures 1 <= |r| <= 3 && r == [1, 2, 3][..|r|]
    ensures ValidSelection(r) && StrictlyIncreasing(r)
    ensures 9 <= month <= 12 ==> |r| == 1
    ensures 1 <= month <= 2 ==> |r| == 2
    ensures 3 <= month <= 8 ==> |r| == 3
  {
    if 9 <= month <= 12 then [1]
    else if 1 <= month <= 2 then [1, 2]
    else if 3 <= month <= 8 then [1, 2, 3]
    else [1]
  }

  /** The label of a multi-select: a placeholder when empty, a summary when
      all three options are on, else the options joined with commas. */
  function ListLabel(items: seq<int>, prefix: string, none: string, all: string): (r: string)
    ensures items == [] ==> r == none
    ensures |items| == 3 ==> r == all
    ensures |items| == 1 ==> r == prefix + IntToString(items[0])
  {
    if |items| == 0 then none
    else if |items| == 3 then all
    else Join(seq(|items|, i requires 0 <= i < |items| => prefix + IntToString(items[i])), ", ")
  }

  /** `getDropdownLabel()` */
  function DropdownLabel(selectedTrimesters: seq<int>): (r: string)
    ensures selectedTrimesters == [] ==> r == "Select Trimesters"
    ensures |selectedTrimesters| == 3 ==> r == "All Trimesters"
    ensures |selectedTrimesters| == 1 ==> r == "T" + IntToString(selectedTrimesters[0])
  {
    ListLabel(selectedTrimesters, "T", "Select Trimesters", "All Trimesters")
  }

  /** `getGradeDropdownLabel()` */
  function GradeDropdownLabel(selectedGrades: seq<int>): (r: string)
    ensures selectedGrades == [] ==> r == "Select Grades"
    ensures |selectedGrades| == 3 ==> r == "All Grades"
    ensures |selectedGrades| == 1 ==> r == "Grade " + IntToString(selectedGrades[0])
  {
    ListLabel(selectedGrades, "Grade ", "Select Grades", "All Grades")
  }

  /** A partial selection's label names every selected option. */
  lemma LabelNamesEachItem(items: seq<int>, prefix: string, none: string, all: string, k: int)
    requires |items| != 3 && 0 <= k < |items|
    ensures exists a :: OccursAt(ListLabel(items, prefix, none, all), prefix + IntToString(items[k]), a)
  {
    var parts := seq(|items|, i requires 0 <= i < |items| => prefix + IntToString(items[i]));
    assert ListLabel(items, prefix, none, all) == Join(parts, ", ");
    assert parts[k] == prefix + IntToString(items[k]);
    JoinContainsParts(parts, ", ", k);
  }

  lemma LabelExamples()
    ensures DropdownLabel([]) == "Select Trimesters"
    ensures DropdownLabel([1, 2, 3]) == "All Trimesters"
    ensures DropdownLabel([2]) == "T2"
    ensures GradeDropdownLabel([10, 11, 12]) == "All Grades"
  {
    assert NatToString(2) == "2";
  }

  // =====================================================================
  // getFilteredAndSortedMembers
  // =====================================================================

  /** A `profiles` row of the roster. */
  datatype Member = Member(
    id: string,
    firstName: string,
    lastName: string,
    email: Option<string>,
    grade: Option<int>)

  /** A member with the roll-up of their hours (`{ ...member, hours }`). */
  datatype Row = Row(member: Member, hours: MemberHours)

  /** The minimum-hours box: blank, or the text typed read by `parseFloat`
      (`None` for NaN). */
  datatype MinHours = Blank | Entered(value: Option<real>)

  datatype RosterFilters = RosterFilters(searchTerm: string, selectedGrades: seq<int>, minHours: MinHours)

  /** The search term, lower-cased, occurs in the lower-cased
      "first last" name or in the lower-cased e-mail (empty when missing). */
  predicate NameMatches(m: Member, searchTerm: string) {
    var fullName := ToLower(m.firstName + " " + m.lastName);
    var email := ToLower(m.email.GetOr(""));
    var searchLower := ToLower(searchTerm);
    Contains(fullName, searchLower) || Contains(email, searchLower)
  }

  /** No grade selected admits everyone; otherwise the member's grade must be
      one of the selected grades (a missing grade never is). */
  predicate GradeMatches(m: Member, selectedGrades: seq<int>) {
    |selectedGrades| == 0 || (m.grade.Some? && m.grade.value in selectedGrades)
  }

  /** `totalHours < parseFloat(minHours)` rejects; a comparison with NaN is
      false, so an unreadable minimum rejects nobody. */
  predicate HoursMatch(h: MemberHours, minHours: MinHours, selected: seq<int>)
    requires ValidSelection(selected)
  {
    match minHours
    case Blank => true
    case Entered(None) => true
    case Entered(Some(min)) => !(SelectedSum(h, selected).overall < min)
  }

  predicate Passes(m: Member, volunteerData: seq<ServiceRecord>, f: RosterFilters, selected: seq<int>)
    requires ValidSelection(selected)
  {
    && NameMatches(m, f.searchTerm)
    && GradeMatches(m, f.selectedGrades)
    && HoursMatch(Rollup(OwnedBy(volunteerData, m.id)), f.minHours, selected)
  }

  /** The members that pass every filter, in roster order. */
  function Admitted(members: seq<Member>, volunteerData: seq<ServiceRecord>, f: RosterFilters, selected: seq<int>)
    : (r: seq<Member>)
    requires ValidSelection(selected)
    ensures forall m :: m in r <==> m in members && Passes(m, volunteerData, f, selected)
    decreases |members|
  {
    if members == [] then []
    else
      var m := members[|members| - 1];
      Admitted(members[..|members| - 1], volunteerData, f, selected)
        + (if Passes(m, volunteerData, f, selected) then [m] else [])
  }

  /** Each member paired with the roll-up of their own records. */
  function WithHours(ms: seq<Member>, volunteerData: seq<ServiceRecord>): (r: seq<Row>)
    ensures |r| == |ms|
    ensures forall i :: 0 <= i < |ms| ==> r[i].member == ms[i]
    ensures forall i :: 0 <= i < |ms| ==> r[i].hours == Rollup(OwnedBy(volunteerData, ms[i].id))
  {
    seq(|ms|, i requires 0 <= i < |ms| => Row(ms[i], Rollup(OwnedBy(volunteerData, ms[i].id))))
  }

  /** With an empty search box, no grade selected and no minimum, every
      member is listed. */
  lemma {:induction false} NoFiltersAdmitsAll(members: seq<Member>, volunteerData: seq<ServiceRecord>, selected: seq<int>)
    requires ValidSelection(selected)
    ensures Admitted(members, volunteerData, RosterFilters("", [], Blank), selected) == members
    decreases |members|
  {
    if members != [] {
      var m := members[|members| - 1];
      NoFiltersAdmitsAll(members[..|members| - 1], volunteerData, selected);
      ContainsEmpty(ToLower(m.firstName + " " + m.lastName));
      assert ToLower("") == "";
      assert members == members[..|members| - 1] + [m];
    }
  }

  // ---------------------------------------------------------------------
  // The comparator
  // ---------------------------------------------------------------------

  /** A sort key: a lower-cased name or an amount. */
  datatype SortValue = Label(text: string) | Number(amount: real)

  /** JavaScript's `<` on strings: lexicographic on characters. */
  predicate StringLess(a: string, b: string)
    decreases |a|
  {
    if a == [] then b != []
    else if b == [] then false
    else if a[0] != b[0] then a[0] < b[0]
    else StringLess(a[1..], b[1..])
  }

  lemma {:induction false} StringLessIrreflexive(a: string)
    ensures !StringLess(a, a)
    decreases |a|
  {
    if a != [] {
      StringLessIrreflexive(a[1..]);
    }
  }

  lemma {:induction false} StringLessTransitive(a: string, b: string, c: string)
    requires StringLess(a, b) && StringLess(b, c)
    ensures StringLess(a, c)
    decreases |a|
  {
    if a != [] && b != [] && c != [] && a[0] == b[0] && b[0] == c[0] {
      StringLessTransitive(a[1..], b[1..], c[1..]);
    }
  }

  lemma StringLessAsymmetric(a: string, b: string)
    requires StringLess(a, b)
    ensures !StringLess(b, a)
  {
    if StringLess(b, a) {
      StringLessTransitive(a, b, a);
      StringLessIrreflexive(a);
    }
  }

  lemma {:induction false} StringLessTotal(a: string, b: string)
    requires a != b
    ensures StringLess(a, b) || StringLess(b, a)
    decreases |a|
  {
    if a != [] && b != [] && a[0] == b[0] {
      assert a == [a[0]] + a[1..] && b == [b[0]] + b[1..];
      StringLessTotal(a[1..], b[1..]);
    }
  }

  predicate ValueLess(a: SortValue, b: SortValue) {
    match (a, b)
    case (Label(x), Label(y)) => StringLess(x, y)
    case (Number(x), Number(y)) => x < y
    case _ => false
  }

  /** The key of a row under a sort column. */
  function SortValueOf(row: Row, key: SortKey, selected: seq<int>): (v: SortValue)
    requires ValidSelection(selected)
    ensures v.Label? <==> key == ByName
  {
    var s := SelectedSum(row.hours, selected);
    match key
    case ByName => Label(ToLower(row.member.lastName + " " + row.member.firstName))
    case ByTotal => Number(s.overall)
    case ByGrade => Number(row.member.grade.GetOr(0) as real)
    case ByInSchool => Number(s.inSchool)
    case ByOutSchool => Number(s.outSchool)
    case ByRedHook => Number(s.redHook)
  }

  /** The comparator returns 1: `a` belongs after `b`. Ascending, when `a`'s
      key is greater; descending, when it is smaller. */
  predicate GoesAfter(a: Row, b: Row, sort: SortState, selected: seq<int>): (r: bool)
    requires ValidSelection(selected)
    ensures SortValueOf(a, sort.sortBy, selected) == SortValueOf(b, sort.sortBy, selected) ==> !r
  {
    var x, y := SortValueOf(a, sort.sortBy, selected), SortValueOf(b, sort.sortBy, selected);
    assert x == y ==> !ValueLess(x, y) by {
      if x == y && x.Label? {
        StringLessIrreflexive(x.text);
      }
    }
    if sort.sortOrder == Asc then ValueLess(y, x) else ValueLess(x, y)
  }

  /** No row belongs after a row further down. */
  predicate SortedBy(rows: seq<Row>, sort: SortState, selected: seq<int>)
    requires ValidSelection(selected)
  {
    forall i, j :: 0 <= i < j < |rows| ==> !GoesAfter(rows[i], rows[j], sort, selected)
  }

  lemma GoesAfterAsymmetric(a: Row, b: Row, sort: SortState, selected: seq<int>)
    requires ValidSelection(selected)
    requires GoesAfter(a, b, sort, selected)
    ensures !GoesAfter(b, a, sort, selected)
  {
    var x, y := SortValueOf(a, sort.sortBy, selected), SortValueOf(b, sort.sortBy, selected);
    if x.Label? {
      if sort.sortOrder == Asc {
        StringLessAsymmetric(y.text, x.text);
      } else {
        StringLessAsymmetric(x.text, y.text);
      }
    }
  }

  /** Rows that neither belong after the other have equal keys. */
  lemma NeitherAfterEqualKeys(a: Row, b: Row, sort: SortState, selected: seq<int>)
    requires ValidSelection(selected)
    requires !GoesAfter(a, b, sort, selected) && !GoesAfter(b, a, sort, selected)
    ensures SortValueOf(a, sort.sortBy, selected) == SortValueOf(b, sort.sortBy, selected)
  {
    var x, y := SortValueOf(a, sort.sortBy, selected), SortValueOf(b, sort.sortBy, selected);
    if x.Label? && x.text != y.text {
      StringLessTotal(x.text, y.text);
    }
  }

  lemma NotAfterTransitive(a: Row, b: Row, c: Row, sort: SortState, selected: seq<int>)
    requires ValidSelection(selected)
    requires !GoesAfter(a, b, sort, selected) && !GoesAfter(b, c, sort, selected)
    ensures !GoesAfter(a, c, sort, selected)
  {
    var x, y, z := SortValueOf(a, sort.sortBy, selected), SortValueOf(b, sort.sortBy, selected),
                   SortValueOf(c, sort.sortBy, selected);
    if x.Label? {
      var p, q, r := x.text, y.text, z.text;
      if p != q { StringLessTotal(p, q); }
      if q != r { StringLessTotal(q, r); }
      if sort.sortOrder == Asc {
        // p <= q <= r
        if p != q && q != r {
          StringLessTransitive(p, q, r);
        }
        if p != r {
          StringLessTotal(p, r);
          if StringLess(p, r) {
            StringLessAsymmetric(p, r);
          }
        } else {
          StringLessIrreflexive(p);
        }
      } else {
        // p >= q >= r
        if p != q && q != r {
          StringLessTransitive(r, q, p);
        }
        if p != r {
          StringLessTotal(p, r);
          if StringLess(r, p) {
            StringLessAsymmetric(r, p);
          }
        } else {
          StringLessIrreflexive(p);
        }
      }
    }
  }

  // ---------------------------------------------------------------------
  // Sorting
  // ---------------------------------------------------------------------

  /** `membersWithHours.sort(comparator)`, as an insertion sort that moves a
      row up while the comparator says the row above belongs after it. The
      engine's own algorithm is not specified; any result it gives is
      ordered in the same sense. */
  method SortRows(a: array<Row>, sort: SortState, selected: seq<int>)
    requires ValidSelection(selected)
    modifies a
    ensures SortedBy(a[..], sort, selected)
    ensures multiset(a[..]) == multiset(old(a[..]))
  {
    var i := 0;
    while i < a.Length
      invariant 0 <= i <= a.Length
      invariant forall p, q :: 0 <= p < q < i ==> !GoesAfter(a[p], a[q], sort, selected)
      invariant multiset(a[..]) == multiset(old(a[..]))
    {
      InsertRow(a, i, sort, selected);
      i := i + 1;
    }
  }

  /** One pass of the insertion sort: row `i` moves up past every row that
      belongs after it, leaving rows `0..i` in order. */
  method InsertRow(a: array<Row>, i: int, sort: SortState, selected: seq<int>)
    requires ValidSelection(selected) && 0 <= i < a.Length
    requires forall p, q :: 0 <= p < q < i ==> !GoesAfter(a[p], a[q], sort, selected)
    modifies a
    ensures forall p, q :: 0 <= p < q <= i ==> !GoesAfter(a[p], a[q], sort, selected)
    ensures multiset(a[..]) == multiset(old(a[..]))
  {
    var j := i;
    while j > 0 && GoesAfter(a[j - 1], a[j], sort, selected)
      invariant 0 <= j <= i
      invariant forall p, q :: 0 <= p < q <= i && p != j && q != j ==> !GoesAfter(a[p], a[q], sort, selected)
      invariant forall q :: j < q <= i ==> !GoesAfter(a[j], a[q], sort, selected)
      invariant multiset(a[..]) == multiset(old(a[..]))
    {
      GoesAfterAsymmetric(a[j - 1], a[j], sort, selected);
      a[j - 1], a[j] := a[j], a[j - 1];
      j := j - 1;
    }
    forall p | 0 <= p < j - 1
      ensures !GoesAfter(a[p], a[j], sort, selected)
    {
      NotAfterTransitive(a[p], a[j - 1], a[j], sort, selected);
    }
  }

  /** Distinct keys: no two rows tie under the sort column. */
  predicate DistinctKeys(rows: seq<Row>, key: SortKey, selected: seq<int>)
    requires ValidSelection(selected)
  {
    forall i, j :: 0 <= i < j < |rows| ==> SortValueOf(rows[i], key, selected) != SortValueOf(rows[j], key, selected)
  }

  /** Removing one copy of the same element from two permutations of each
      other leaves permutations of each other. */
  lemma MultisetRemove<T>(a: seq<T>, b: seq<T>, i: int, k: int)
    requires multiset(a) == multiset(b)
    requires 0 <= i < |a| && 0 <= k < |b| && a[i] == b[k]
    ensures multiset(a[..i] + a[i + 1..]) == multiset(b[..k] + b[k + 1..])
  {
    assert a == a[..i] + [a[i]] + a[i + 1..];
    assert b == b[..k] + [b[k]] + b[k + 1..];
    assert multiset(a[..i] + a[i + 1..]) == multiset(a) - multiset{a[i]};
    assert multiset(b[..k] + b[k + 1..]) == multiset(b) - multiset{b[k]};
  }

  lemma MultisetTail<T>(r: seq<T>, t: seq<T>)
    requires r != [] && t != [] && r[0] == t[0]
    requires multiset(r) == multiset(t)
    ensures multiset(r[1..]) == multiset(t[1..])
  {
    assert r == [r[0]] + r[1..] && t == [t[0]] + t[1..];
    assert multiset(r[1..]) == multiset(r) - multiset{r[0]};
    assert multiset(t[1..]) == multiset(t) - multiset{t[0]};
  }

  lemma SameHeadAndTail<T>(r: seq<T>, t: seq<T>)
    requires r != [] && t != [] && r[0] == t[0] && r[1..] == t[1..]
    ensures r == t
  {
    assert r == [r[0]] + r[1..] && t == [t[0]] + t[1..];
  }

  lemma SortedTail(r: seq<Row>, sort: SortState, selected: seq<int>)
    requires ValidSelection(selected) && r != []
    requires SortedBy(r, sort, selected)
    ensures SortedBy(r[1..], sort, selected)
    ensures DistinctKeys(r, sort.sortBy, selected) ==> DistinctKeys(r[1..], sort.sortBy, selected)
  {
    var s := r[1..];
    forall i, j | 0 <= i < j < |s| ensures !GoesAfter(s[i], s[j], sort, selected) {
      assert s[i] == r[i + 1] && s[j] == r[j + 1];
    }
    if DistinctKeys(r, sort.sortBy, selected) {
      forall i, j | 0 <= i < j < |s|
        ensures SortValueOf(s[i], sort.sortBy, selected) != SortValueOf(s[j], sort.sortBy, selected)
      {
        assert s[i] == r[i + 1] && s[j] == r[j + 1];
      }
    }
  }

  /** Two sorted permutations of each other with distinct keys start with the
      same row. */
  lemma SortedSameHead(r: seq<Row>, t: seq<Row>, sort: SortState, selected: seq<int>)
    requires ValidSelection(selected) && r != [] && t != []
    requires SortedBy(r, sort, selected) && SortedBy(t, sort, selected)
    requires multiset(r) == multiset(t)
    requires DistinctKeys(r, sort.sortBy, selected)
    ensures r[0] == t[0]
  {
    assert r[0] in multiset(t);
    var k :| 0 <= k < |t| && t[k] == r[0];
    assert t[0] in multiset(r);
    var m :| 0 <= m < |r| && r[m] == t[0];
    if k != 0 && m != 0 {
      assert !GoesAfter(r[0], r[m], sort, selected);
      assert !GoesAfter(t[0], t[k], sort, selected);
      NeitherAfterEqualKeys(r[0], r[m], sort, selected);
      assert false;
    }
  }

  /** With distinct keys there is only one ordering of a set of rows. */
  lemma {:induction false} SortedUnique(r: seq<Row>, t: seq<Row>, sort: SortState, selected: seq<int>)
    requires ValidSelection(selected)
    requires SortedBy(r, sort, selected) && SortedBy(t, sort, selected)
    requires multiset(r) == multiset(t)
    requires DistinctKeys(r, sort.sortBy, selected)
    ensures r == t
    decreases |r|
  {
    assert |r| == |multiset(r)| == |multiset(t)| == |t|;
    if r != [] {
      SortedTails(r, t, sort, selected);
      SortedUnique(r[1..], t[1..], sort, selected);
      SameHeadAndTail(r, t);
    }
  }

  /** The induction step of `SortedUnique`: equal heads, and tails that again
      meet its requirements. */
  lemma SortedTails(r: seq<Row>, t: seq<Row>, sort: SortState, selected: seq<int>)
    requires ValidSelection(selected) && r != [] && t != []
    requires SortedBy(r, sort, selected) && SortedBy(t, sort, selected)
    requires multiset(r) == multiset(t)
    requires DistinctKeys(r, sort.sortBy, selected)
    ensures r[0] == t[0]
    ensures SortedBy(r[1..], sort, selected) && SortedBy(t[1..], sort, selected)
    ensures multiset(r[1..]) == multiset(t[1..])
    ensures DistinctKeys(r[1..], sort.sortBy, selected)
  {
    SortedSameHead(r, t, sort, selected);
    MultisetTail(r, t);
    SortedTail(r, sort, selected);
    SortedTail(t, sort, selected);
  }

  function Reverse(s: seq<Row>): (r: seq<Row>)
    ensures |r| == |s|
    ensures forall i :: 0 <= i < |s| ==> r[i] == s[|s| - 1 - i]
  {
    seq(|s|, i requires 0 <= i < |s| => s[|s| - 1 - i])
  }

  lemma {:induction false} ReversePermutes(s: seq<Row>)
    ensures multiset(Reverse(s)) == multiset(s)
    decreases |s|
  {
    if s != [] {
      ReversePermutes(s[1..]);
      assert Reverse(s) == Reverse(s[1..]) + [s[0]];
      assert s == [s[0]] + s[1..];
    }
  }

  /** When no two listed members tie on the sort column, sorting the same
      members descending gives the ascending order reversed. */
  lemma DescendingIsReversedAscending(asc: seq<Row>, desc: seq<Row>, key: SortKey, selected: seq<int>)
    requires ValidSelection(selected)
    requires SortedBy(asc, SortState(key, Asc), selected)
    requires SortedBy(desc, SortState(key, Desc), selected)
    requires multiset(asc) == multiset(desc)
    requires DistinctKeys(asc, key, selected)
    ensures desc == Reverse(asc)
  {
    var r := Reverse(asc);
    var n := |asc|;
    ReversePermutes(asc);
    forall i, j | 0 <= i < j < n
      ensures !GoesAfter(r[i], r[j], SortState(key, Desc), selected)
    {
      assert !GoesAfter(asc[n - 1 - j], asc[n - 1 - i], SortState(key, Asc), selected);
    }
    forall i, j | 0 <= i < j < n
      ensures SortValueOf(r[i], key, selected) != SortValueOf(r[j], key, selected)
    {
      assert n - 1 - j < n - 1 - i;
    }
    SortedUnique(r, desc, SortState(key, Desc), selected);
  }

  // =====================================================================
  // calculateTotals
  // =====================================================================

  /** The selected hours of a list of rows, summed field by field. */
  function RowsTotal(rows: seq<Row>, selected: seq<int>): HourVector
    requires ValidSelection(selected)
    decreases |rows|
  {
    if rows == [] then Zero
    else Plus(RowsTotal(rows[..|rows| - 1], selected), SelectedSum(rows[|rows| - 1].hours, selected))
  }

  /** `calculateTotals(filteredMembers)` */
  method CalculateTotals(filteredMembers: seq<Row>, selectedTrimesters: seq<int>) returns (totals: HourVector)
    requires ValidSelection(selectedTrimesters)
    ensures totals == RowsTotal(filteredMembers, selectedTrimesters)
  {
    totals := Zero;
    var i := 0;
    while i < |filteredMembers|
      invariant 0 <= i <= |filteredMembers|
      invariant totals == RowsTotal(filteredMembers[..i], selectedTrimesters)
    {
      var selectedHours := SelectedHours(filteredMembers[i].hours, selectedTrimesters);
      totals := HourVector(totals.inSchool + selectedHours.inSchool, totals.outSchool + selectedHours.outSchool,
                           totals.redHook + selectedHours.redHook, totals.overall + selectedHours.overall);
      assert filteredMembers[..i + 1][..i] == filteredMembers[..i];
      i := i + 1;
    }
    assert filteredMembers[..i] == filteredMembers;
  }

  lemma {:induction false} RowsTotalConcat(p: seq<Row>, q: seq<Row>, selected: seq<int>)
    requires ValidSelection(selected)
    ensures RowsTotal(p + q, selected) == Plus(RowsTotal(p, selected), RowsTotal(q, selected))
    decreases |q|
  {
    if q == [] {
      assert p + q == p;
    } else {
      var q' := q[..|q| - 1];
      assert (p + q)[..|p + q| - 1] == p + q';
      RowsTotalConcat(p, q', selected);
    }
  }

  lemma PlusRearrange(p: HourVector, q: HourVector, v: HourVector)
    ensures Plus(Plus(p, Plus(Zero, v)), q) == Plus(Plus(p, q), v)
  {
  }

  /** The totals row does not depend on the order of the rows. */
  lemma {:induction false} RowsTotalPermutation(a: seq<Row>, b: seq<Row>, selected: seq<int>)
    requires ValidSelection(selected)
    requires multiset(a) == multiset(b)
    ensures RowsTotal(a, selected) == RowsTotal(b, selected)
    decreases |a|
  {
    assert |a| == |multiset(a)| == |multiset(b)| == |b|;
    if a != [] {
      var init, x := a[..|a| - 1], a[|a| - 1];
      assert a == init + [x];
      assert x in multiset(b);
      var k :| 0 <= k < |b| && b[k] == x;
      var before, after := b[..k], b[k + 1..];
      assert b == before + [x] + after;
      var rest := before + after;
      MultisetRemove(a, b, |a| - 1, k);
      assert a[..|a| - 1] + a[|a|..] == init;
      RowsTotalPermutation(init, rest, selected);
      RowsTotalConcat(before + [x], after, selected);
      RowsTotalConcat(before, [x], selected);
      RowsTotalConcat(before, after, selected);
      assert [x][..0] == [];
      var p, q, v := RowsTotal(before, selected), RowsTotal(after, selected), SelectedSum(x.hours, selected);
      assert RowsTotal([x], selected) == Plus(Zero, v);
      assert RowsTotal(b, selected) == Plus(Plus(p, Plus(Zero, v)), q);
      assert RowsTotal(a, selected) == Plus(Plus(p, q), v);
      PlusRearrange(p, q, v);
    }
  }

  // =====================================================================
  // The rendered table
  // =====================================================================

  /** `getFilteredAndSortedMembers()`: keep the members that pass the
      filters, pair each with its roll-up, then sort by the comparator. */
  method FilteredAndSortedMembers(members: seq<Member>, volunteerData: seq<ServiceRecord>, f: RosterFilters,
                                  selectedTrimesters: seq<int>, sort: SortState)
    returns (rows: seq<Row>)
    requires ValidSelection(selectedTrimesters)
    ensures multiset(rows) == multiset(WithHours(Admitted(members, volunteerData, f, selectedTrimesters), volunteerData))
    ensures SortedBy(rows, sort, selectedTrimesters)
  {
    var filtered := FilterMembers(members, volunteerData, f, selectedTrimesters);
    var withHours := AttachHours(filtered, volunteerData);
    var a := new Row[|withHours|](k requires 0 <= k < |withHours| => withHours[k]);
    assert a[..] == withHours;
    SortRows(a, sort, selectedTrimesters);
    rows := a[..];
  }

  /** The `filter` pass of `getFilteredAndSortedMembers()`; a member's hours
      are only computed when there is a minimum to compare them with. */
  method FilterMembers(members: seq<Member>, volunteerData: seq<ServiceRecord>, f: RosterFilters,
                       selectedTrimesters: seq<int>)
    returns (filtered: seq<Member>)
    requires ValidSelection(selectedTrimesters)
    ensures filtered == Admitted(members, volunteerData, f, selectedTrimesters)
  {
    filtered := [];
    var i := 0;
    while i < |members|
      invariant 0 <= i <= |members|
      invariant filtered == Admitted(members[..i], volunteerData, f, selectedTrimesters)
    {
      var keep := KeepMember(members[i], volunteerData, f, selectedTrimesters);
      if keep {
        filtered := filtered + [members[i]];
      }
      assert members[..i + 1][..i] == members[..i];
      i := i + 1;
    }
    assert members[..i] == members;
  }

  /** The `filter` callback for one member: search term, then grade, then
      the minimum against the hours of the selected trimesters. */
  method KeepMember(member: Member, volunteerData: seq<ServiceRecord>, f: RosterFilters,
                    selectedTrimesters: seq<int>)
    returns (keep: bool)
    requires ValidSelection(selectedTrimesters)
    ensures keep == Passes(member, volunteerData, f, selectedTrimesters)
  {
    keep := NameMatches(member, f.searchTerm) && GradeMatches(member, f.selectedGrades);
    if keep && f.minHours.Entered? && f.minHours.value.Some? {
      var hours := CalculateMemberHours(volunteerData, member.id);
      var selectedHours := SelectedHours(hours, selectedTrimesters);
      keep := !(selectedHours.overall < f.minHours.value.value);
    }
  }

  /** The `map` pass: each kept member with its roll-up. */
  method AttachHours(filtered: seq<Member>, volunteerData: seq<ServiceRecord>) returns (withHours: seq<Row>)
    ensures withHours == WithHours(filtered, volunteerData)
  {
    withHours := [];
    var j := 0;
    while j < |filtered|
      invariant 0 <= j <= |filtered|
      invariant withHours == WithHours(filtered[..j], volunteerData)
    {
      var hours := CalculateMemberHours(volunteerData, filtered[j].id);
      withHours := withHours + [Row(filtered[j], hours)];
      j := j + 1;
    }
    assert filtered[..j] == filtered;
  }

  /** What the catalogue shows. */
  /** The colours of a row's three category cells and of its total cell. */
  datatype RowColours = RowColours(inSchool: Colour, outSchool: Colour, redHook: Colour, total: Colour)

  /** A row's colours for its selected-trimester hours `v`, with `k`
      trimesters selected. */
  function ColoursOf(v: HourVector, k: nat): RowColours {
    RowColours(HourColor(v.inSchool, InSchoolField, k), HourColor(v.outSchool, OutSchoolField, k),
               HourColor(v.redHook, RedHookField, k), TotalColor(v, k))
  }

  datatype CatalogueView = NoPermission | Table(rows: seq<Row>, colours: seq<RowColours>, totals: HourVector)

  /** The catalogue for a viewer with role `role`: only admins and leaders
      see hours; they see the filtered members, sorted, each coloured by its
      selected-trimester hours against thresholds scaled by the number of
      trimesters selected, and a totals row that sums the listed members
      whatever the sort. */
  method RenderCatalogue(role: Option<Role>, members: seq<Member>, volunteerData: seq<ServiceRecord>,
                         f: RosterFilters, selectedTrimesters: seq<int>, sort: SortState)
    returns (view: CatalogueView)
    requires ValidSelection(selectedTrimesters)
    ensures view.NoPermission? <==> !IsManager(role)
    ensures view.Table? ==>
              var listed := WithHours(Admitted(members, volunteerData, f, selectedTrimesters), volunteerData);
              && multiset(view.rows) == multiset(listed)
              && SortedBy(view.rows, sort, selectedTrimesters)
              && view.totals == RowsTotal(listed, selectedTrimesters)
    ensures view.Table? ==>
              && |view.colours| == |view.rows|
              && forall i :: 0 <= i < |view.rows| ==>
                   view.colours[i] == ColoursOf(SelectedSum(view.rows[i].hours, selectedTrimesters), |selectedTrimesters|)
  {
    if !IsManager(role) {
      return NoPermission;
    }
    var rows := FilteredAndSortedMembers(members, volunteerData, f, selectedTrimesters, sort);
    var totals := CalculateTotals(rows, selectedTrimesters);
    RowsTotalPermutation(rows, WithHours(Admitted(members, volunteerData, f, selectedTrimesters), volunteerData),
                         selectedTrimesters);
    var colours := seq(|rows|, i requires 0 <= i < |rows| =>
      ColoursOf(SelectedSum(rows[i].hours, selectedTrimesters), |selectedTrimesters|));
    view := Table(rows, colours, totals);
  }
}
