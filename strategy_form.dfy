/** The admin's strategy entry form (src/components/forms/StrategyEntryForm.tsx): the editable
    allocation rows and the displayed ROI derived from the internal ROI and the disclosure factor.
    Numbers typed into the form are JavaScript numbers, modelled as reals. */
module StrategyForm {
  import opened Common

  /** One row of the allocation editor. */
  datatype AllocationRow = AllocationRow(asset: string, percentage: real, color: string)

  /** The form fields these handlers read or write; every other field is carried over unchanged by
      each of them and is not modelled. */
  datatype FormState = FormState(
    internalROI: real,
    conservativeROI: real,
    disclosureFactor: real,
    allocation: seq<AllocationRow>)

  /** The values an existing strategy brings into the form; a missing field is `None`. */
  datatype InitialData = InitialData(
    internalROI: Option<real>,
    conservativeROI: Option<real>,
    disclosureFactor: Option<real>,
    allocation: Option<seq<AllocationRow>>)

  const FirstRow: AllocationRow := AllocationRow("", 100.0, "#10b981")
  const AddedRow: AllocationRow := AllocationRow("", 0.0, "#3b82f6")
  const DefaultFactor: real := 0.5

  /** `v || d` on a number: a missing value and 0 both fall back to `d`. */
  function NumberOr(v: Option<real>, d: real): (r: real)
    ensures v.None? || v.value == 0.0 ==> r == d
    ensures v.Some? && v.value != 0.0 ==> r == v.value
  {
    if v.None? || v.value == 0.0 then d else v.value
  }

  /** The form's first state. A list, even an empty one, is kept as given; with no list the editor
      starts from one row holding all 100%. */
  function InitialForm(init: Option<InitialData>): (r: FormState)
    ensures r.disclosureFactor != 0.0
    ensures init.None? ==> && r.internalROI == 0.0 && r.conservativeROI == 0.0 && r.disclosureFactor == DefaultFactor
                           && |r.allocation| == 1 && r.allocation[0].percentage == 100.0
    ensures init.Some? && init.value.allocation.Some? ==> r.allocation == init.value.allocation.value
  {
    var d := init.GetOr(InitialData(None, None, None, None));
    FormState(NumberOr(d.internalROI, 0.0), NumberOr(d.conservativeROI, 0.0), NumberOr(d.disclosureFactor, DefaultFactor),
              d.allocation.GetOr([FirstRow]))
  }

  /** The field an allocation input edits, with the value typed. */
  datatype RowEdit = SetAsset(asset: string) | SetPercentage(percentage: real) | SetColor(color: string)

  /** `{ ...row, [field]: value }`. */
  function Edited(row: AllocationRow, e: RowEdit): AllocationRow {
    match e
    case SetAsset(a) => row.(asset := a)
    case SetPercentage(p) => row.(percentage := p)
    case SetColor(c) => row.(color := c)
  }

  /** `handleAllocationChange`: copy the rows, replace the one at `index` by itself with the one
      field edited, and store the copy. Every other row and every other field stays as it was. */
  method ChangeAllocation(f: FormState, index: nat, e: RowEdit) returns (r: FormState)
    requires index < |f.allocation|
    ensures r == f.(allocation := r.allocation)
    ensures |r.allocation| == |f.allocation|
    ensures r.allocation[index] == Edited(f.allocation[index], e)
    ensures forall i :: 0 <= i < |f.allocation| && i != index ==> r.allocation[i] == f.allocation[i]
  {
    var rows := f.allocation;
    var copy := new AllocationRow[|rows|](i requires 0 <= i < |rows| => rows[i]);
    copy[index] := Edited(copy[index], e);
    r := f.(allocation := copy[..]);
  }

  /** `addAllocation`: one empty row at 0% is appended. */
  function AddAllocation(f: FormState): FormState {
    f.(allocation := f.allocation + [AddedRow])
  }

  /** `filter((_, i) => i !== index)`: the rows whose position is not `index`. */
  function WithoutIndex(rows: seq<AllocationRow>, index: int): seq<AllocationRow>
    decreases |rows|
  {
    if rows == [] then []
    else (if index == 0 then [] else [rows[0]]) + WithoutIndex(rows[1..], index - 1)
  }

  /** Filtering by position removes exactly the row at `index`, keeping the others in order, and
      removes nothing when no row sits at `index`. */
  lemma {:induction false} WithoutIndexSlices(rows: seq<AllocationRow>, index: int)
    ensures 0 <= index < |rows| ==> WithoutIndex(rows, index) == rows[..index] + rows[index + 1..]
    ensures !(0 <= index < |rows|) ==> WithoutIndex(rows, index) == rows
    decreases |rows|
  {
    if rows != [] {
      var tail := rows[1..];
      WithoutIndexSlices(tail, index - 1);
      assert WithoutIndex(rows, index) == (if index == 0 then [] else [rows[0]]) + WithoutIndex(tail, index - 1);
      if index == 0 {
        assert rows[..0] + rows[1..] == tail;
      } else if 0 < index < |rows| {
        DropInTail(rows, index);
      } else {
        assert rows == [rows[0]] + tail;
      }
    }
  }

  /** Dropping position `index > 0` keeps the first row and drops position `index - 1` of the rest. */
  lemma DropInTail(rows: seq<AllocationRow>, index: nat)
    requires 0 < index < |rows|
    ensures rows[..index] + rows[index + 1..] == [rows[0]] + (rows[1..][..index - 1] + rows[1..][index..])
  {
    assert rows[..index] == [rows[0]] + rows[1..][..index - 1];
    assert rows[index + 1..] == rows[1..][index..];
  }

  /** `removeAllocation`: nothing happens while a single row is left; otherwise the row at
      `index` is dropped. */
  function RemoveAllocation(f: FormState, index: int): FormState {
    if |f.allocation| == 1 then f
    else f.(allocation := WithoutIndex(f.allocation, index))
  }

  /** Removing keeps the last row, drops exactly the named one otherwise, and changes no other
      field. */
  lemma RemoveAllocationRows(f: FormState, index: int)
    ensures var r := RemoveAllocation(f, index);
            && r == f.(allocation := r.allocation)
            && (|f.allocation| == 1 ==> r == f)
            && (|f.allocation| != 1 && 0 <= index < |f.allocation| ==>
                  r.allocation == f.allocation[..index] + f.allocation[index + 1..])
            && (!(0 <= index < |f.allocation|) ==> r == f)
            && (|f.allocation| >= 1 ==> |r.allocation| >= 1)
  {
    WithoutIndexSlices(f.allocation, index);
  }

  /** Adding a row and removing it again gives back the form, as long as a row was there to begin
      with (a lone added row cannot be removed). */
  lemma AddThenRemove(f: FormState)
    requires |f.allocation| >= 1
    ensures RemoveAllocation(AddAllocation(f), |f.allocation|) == f
  {
    var rows := f.allocation + [AddedRow];
    WithoutIndexSlices(rows, |f.allocation|);
    assert rows[..|f.allocation|] == f.allocation;
  }

  /** `Math.floor(internal * factor)`. */
  function DisplayedRoi(internal: real, factor: real): (r: int)
    ensures r as real <= internal * factor < r as real + 1.0
  {
    (internal * factor).Floor
  }

  /** With a factor between 0 and 1 the displayed ROI never exceeds the internal one. */
  lemma DisplayedRoiBounded(internal: real, factor: real)
    requires internal >= 0.0 && 0.0 <= factor <= 1.0
    ensures 0 <= DisplayedRoi(internal, factor) && DisplayedRoi(internal, factor) as real <= internal
  {
    assert internal * factor <= internal * 1.0;
  }

  /** The displayed ROI matches the two inputs it is derived from. */
  predicate RoiConsistent(f: FormState) {
    f.conservativeROI == DisplayedRoi(f.internalROI, f.disclosureFactor) as real
  }

  /** `autoCalculateConservative`: a new internal ROI recomputes the displayed one. */
  function SetInternalRoi(f: FormState, internal: real): FormState {
    f.(internalROI := internal, conservativeROI := DisplayedRoi(internal, f.disclosureFactor) as real)
  }

  /** The disclosure factor's `onChange`: a new factor recomputes the displayed ROI. */
  function SetDisclosureFactor(f: FormState, factor: real): FormState {
    f.(disclosureFactor := factor, conservativeROI := DisplayedRoi(f.internalROI, factor) as real)
  }

  /** The displayed ROI's own `onChange`: the typed number overwrites it, and nothing is recomputed. */
  function SetConservativeRoi(f: FormState, v: real): FormState {
    f.(conservativeROI := v)
  }

  /** Typing into the displayed ROI changes only that field, and the form stays in step with its
      inputs exactly when the typed number is the computed one: any other number breaks the link. */
  lemma ManualRoiOverride(f: FormState, v: real)
    ensures var g := SetConservativeRoi(f, v);
            && g.conservativeROI == v && g.internalROI == f.internalROI
            && g.disclosureFactor == f.disclosureFactor && g.allocation == f.allocation
    ensures RoiConsistent(SetConservativeRoi(f, v)) <==> v == DisplayedRoi(f.internalROI, f.disclosureFactor) as real
    ensures !RoiConsistent(SetConservativeRoi(f, DisplayedRoi(f.internalROI, f.disclosureFactor) as real + 1.0))
  {
  }

  /** Whatever the form held before, changing either input leaves the displayed ROI in step with
      both, and the row editors never disturb it. */
  lemma RoiFollowsInputs(f: FormState, internal: real, factor: real, index: int)
    ensures RoiConsistent(SetInternalRoi(f, internal)) && SetInternalRoi(f, internal).internalROI == internal
    ensures RoiConsistent(SetDisclosureFactor(f, factor)) && SetDisclosureFactor(f, factor).disclosureFactor == factor
    ensures RoiConsistent(f) ==> RoiConsistent(AddAllocation(f)) && RoiConsistent(RemoveAllocation(f, index))
  {
  }
}
