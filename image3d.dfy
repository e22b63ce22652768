/** The slice stack (Image3D): a list of slices that is created by the first
    add, a `sorted` flag, and the slice ordering. Adding a slice clears the
    flag; the position-dependent reads sort the list first when the flag is
    clear; the other accessors read the first slice as it stands. */
module Volume {
  import opened Wrappers
  import opened Slices
  import opened SliceOrder

  /** The unchecked exceptions the Java methods raise. */
  datatype Fault = NullReference | IndexOutOfBounds

  class Image3D {
    /** None until the first add: the Java field starts out null. */
    var images: Option<seq<Slice>>
    var sorted: bool
    /** The slice comparator, as the key it orders by. */
    const positionKey: Slice -> int

    /** The flag never claims more than is true: a stack marked sorted is. */
    ghost predicate Valid()
      reads this
    {
      sorted ==> images.Some? && SortedBy(images.value, positionKey)
    }

    /** The slices, with a list that was never created read as empty. */
    function Elements(): seq<Slice>
      reads this
    {
      if images.Some? then images.value else []
    }

    constructor (key: Slice -> int)
      ensures Valid()
      ensures images == None && !sorted && positionKey == key
    {
      images := None;
      sorted := false;
      positionKey := key;
    }

    /** A slice with an empty SOP Instance UID is dropped; any other slice
        goes to the end of the list and clears the flag. */
    method Add(slice: Slice)
      requires Valid()
      modifies this
      ensures Valid()
      ensures images.Some?
      ensures slice.sopInstanceUID == "" ==> images.value == old(Elements()) && sorted == old(sorted)
      ensures slice.sopInstanceUID != "" ==> images.value == old(Elements()) + [slice] && !sorted
      ensures |images.value| > 0 ==> old(|Elements()| > 0) ==> images.value[0] == old(Elements()[0])
    {
      if images == None {
        images := Some([]);
      }
      if slice.sopInstanceUID == "" {
        return;
      }
      images := Some(images.value + [slice]);
      sorted := false;
    }

    function Get(index: int): (r: Result<Slice, Fault>)
      reads this
      ensures images == None ==> r == Failure(NullReference)
      ensures images.Some? ==> (r.Success? <==> 0 <= index < |images.value|)
      ensures r.Success? ==> r.value == images.value[index]
      ensures r.Failure? && images.Some? ==> r.error == IndexOutOfBounds
    {
      match images
      case None => Failure(NullReference)
      case Some(s) => if 0 <= index < |s| then Success(s[index]) else Failure(IndexOutOfBounds)
    }

    function Size(): (n: nat)
      reads this
      ensures images == None ==> n == 0
      ensures images.Some? ==> n == |images.value|
    {
      if images.Some? then |images.value| else 0
    }

    /** Sorts the list with the slice comparator and sets the flag. */
    method Sort() returns (fault: Option<Fault>)
      requires Valid()
      modifies this
      ensures Valid()
      ensures old(images) == None ==> fault == Some(NullReference) && images == None && sorted == old(sorted)
      ensures old(images).Some? ==> fault == None && sorted && images == Some(SortByKey(old(images.value), positionKey))
      ensures old(images).Some? ==> IsStableSortOf(images.value, old(images.value), positionKey)
    {
      if images == None {
        return Some(NullReference);
      }
      SortByKeyIsStableSort(images.value, positionKey);
      images := Some(SortByKey(images.value, positionKey));
      sorted := true;
      fault := None;
    }

    /** The repair-on-read step shared by the position-dependent reads:
        sort unless the flag is set. Either way the list ends up as the
        stable sort of the list before the call. */
    method EnsureSorted() returns (fault: Option<Fault>)
      requires Valid()
      modifies this
      ensures Valid()
      ensures old(images) == None ==> fault == Some(NullReference) && images == None && sorted == old(sorted)
      ensures old(images).Some? ==> fault == None && sorted && images == Some(SortByKey(old(images.value), positionKey))
    {
      fault := None;
      if !sorted {
        fault := Sort();
      } else {
        SortByKeyOfSorted(images.value, positionKey);
      }
    }

    // The first-slice accessors. Each faults when the list was never
    // created, returns its default on an empty list and otherwise reads the
    // first slice in the list's current order, sorted or not.

    function FrameOfReferenceUID(): (r: Result<string, Fault>)
      reads this
      ensures images == None ==> r == Failure(NullReference)
      ensures images == Some([]) ==> r == Success("")
      ensures Size() > 0 ==> r == Success(Get(0).value.frameOfReferenceUID)
    {
      match images
      case None => Failure(NullReference)
      case Some(s) => Success(if s == [] then "" else s[0].frameOfReferenceUID)
    }

    function GetModality(): (r: Result<Modality, Fault>)
      reads this
      ensures images == None ==> r == Failure(NullReference)
      ensures images == Some([]) ==> r == Success(UnknownModality)
      ensures Size() > 0 ==> r == Success(Get(0).value.modality)
    {
      match images
      case None => Failure(NullReference)
      case Some(s) => Success(if s == [] then UnknownModality else s[0].modality)
    }

    function StudyInstanceUID(): (r: Result<string, Fault>)
      reads this
      ensures images == None ==> r == Failure(NullReference)
      ensures images == Some([]) ==> r == Success("")
      ensures Size() > 0 ==> r == Success(Get(0).value.studyInstanceUID)
    {
      match images
      case None => Failure(NullReference)
      case Some(s) => Success(if s == [] then "" else s[0].studyInstanceUID)
    }

    function GetPatientPosition(): (r: Result<PatientPosition, Fault>)
      reads this
      ensures images == None ==> r == Failure(NullReference)
      ensures images == Some([]) ==> r == Success(UnknownPosition)
      ensures Size() > 0 ==> r == Success(Get(0).value.patientPosition)
    {
      match images
      case None => Failure(NullReference)
      case Some(s) => Success(if s == [] then UnknownPosition else s[0].patientPosition)
    }

    /** None stands for the null the source returns on an empty list. */
    function PixelSpacing(): (r: Result<Option<seq<real>>, Fault>)
      reads this
      ensures images == None ==> r == Failure(NullReference)
      ensures images == Some([]) ==> r == Success(None)
      ensures Size() > 0 ==> r == Success(Some(Get(0).value.pixelSpacing))
    {
      match images
      case None => Failure(NullReference)
      case Some(s) => Success(if s == [] then None else Some(s[0].pixelSpacing))
    }

    /** None stands for the null the source returns on an empty list. */
    function ImageOrientationPatient(): (r: Result<Option<seq<real>>, Fault>)
      reads this
      ensures images == None ==> r == Failure(NullReference)
      ensures images == Some([]) ==> r == Success(None)
      ensures Size() > 0 ==> r == Success(Some(Get(0).value.imageOrientationPatient))
    {
      match images
      case None => Failure(NullReference)
      case Some(s) => Success(if s == [] then None else Some(s[0].imageOrientationPatient))
    }

    function GetPixelRepresentation(): (r: Result<PixelRepresentation, Fault>)
      reads this
      ensures images == None ==> r == Failure(NullReference)
      ensures images == Some([]) ==> r == Success(NoRepresentation)
      ensures Size() > 0 ==> r == Success(Get(0).value.pixelRepresentation)
    {
      match images
      case None => Failure(NullReference)
      case Some(s) => Success(if s == [] then NoRepresentation else s[0].pixelRepresentation)
    }

    function BitsAllocated(): (r: Result<int, Fault>)
      reads this
      ensures images == None ==> r == Failure(NullReference)
      ensures images == Some([]) ==> r == Success(0)
      ensures Size() > 0 ==> r == Success(Get(0).value.bitsAllocated)
    {
      match images
      case None => Failure(NullReference)
      case Some(s) => Success(if s == [] then 0 else s[0].bitsAllocated)
    }

    /** The position of the first slice of the sorted stack, which is a slice
        of least key; the stack is left sorted. */
    method ImagePositionPatient() returns (r: Result<Option<seq<real>>, Fault>)
      requires Valid()
      modifies this
      ensures Valid()
      ensures old(images) == None ==> r == Failure(NullReference) && images == None && sorted == old(sorted)
      ensures old(images) == Some([]) ==> r == Success(None) && images == Some([]) && sorted == old(sorted)
      ensures old(Size()) > 0 ==> sorted && images == Some(SortByKey(old(Elements()), positionKey))
      ensures old(Size()) > 0 ==> |images.value| > 0 && r == Success(Some(images.value[0].imagePositionPatient))
      ensures old(Size()) > 0 ==> images.value[0] in old(Elements())
      ensures old(Size()) > 0 ==> forall x | x in old(Elements()) :: positionKey(images.value[0]) <= positionKey(x)
    {
      if images == None {
        return Failure(NullReference);
      }
      if images.value == [] {
        return Success(None);
      }
      ghost var before := images.value;
      var fault := EnsureSorted();
      SortByKeyIsStableSort(before, positionKey);
      SortedHeadIsMinimal(images.value, positionKey);
      assert images.value[0] in multiset(before);
      forall x | x in before ensures positionKey(images.value[0]) <= positionKey(x) {
        assert x in multiset(images.value);
      }
      r := Success(Some(images.value[0].imagePositionPatient));
    }

    /** The stored value at (column, row) of the slice at `depth` in the
        sorted stack; a depth outside the stack gives an empty result. */
    method GetValue(column: int, row: int, depth: int) returns (r: Result<Option<real>, Fault>)
      requires Valid()
      modifies this
      ensures Valid()
      ensures old(images) == None ==> r == Failure(NullReference) && images == None && sorted == old(sorted)
      ensures old(images).Some? ==> sorted && images == Some(SortByKey(old(images.value), positionKey))
      ensures old(images).Some? ==> r.Success?
      ensures old(images).Some? && !(0 <= depth < old(Size())) ==> r == Success(None)
      ensures old(images).Some? && 0 <= depth < old(Size()) ==>
        |images.value| == old(Size()) && r == Success(images.value[depth].Value(column, row))
    {
      var fault := EnsureSorted();
      if fault.Some? {
        return Failure(fault.value);
      }
      SortByKeyPermutes(old(images.value), positionKey);
      assert |multiset(images.value)| == |multiset(old(images.value))|;
      var nd := |images.value|;
      if depth < 0 || depth >= nd {
        return Success(None);
      }
      r := Success(images.value[depth].Value(column, row));
    }

    /** As GetValue, with the slice's rescaled value. */
    method GetScaledValue(column: int, row: int, depth: int) returns (r: Result<Option<real>, Fault>)
      requires Valid()
      modifies this
      ensures Valid()
      ensures old(images) == None ==> r == Failure(NullReference) && images == None && sorted == old(sorted)
      ensures old(images).Some? ==> sorted && images == Some(SortByKey(old(images.value), positionKey))
      ensures old(images).Some? ==> r.Success?
      ensures old(images).Some? && !(0 <= depth < old(Size())) ==> r == Success(None)
      ensures old(images).Some? && 0 <= depth < old(Size()) ==>
        |images.value| == old(Size()) && r == Success(images.value[depth].ScaledValue(column, row))
    {
      var fault := EnsureSorted();
      if fault.Some? {
        return Failure(fault.value);
      }
      SortByKeyPermutes(old(images.value), positionKey);
      assert |multiset(images.value)| == |multiset(old(images.value))|;
      var nd := |images.value|;
      if depth < 0 || depth >= nd {
        return Success(None);
      }
      r := Success(images.value[depth].ScaledValue(column, row));
    }
  }

  /** The slice-stacking key of a slice whose position is (0, 0, z). */
  function StackAxisKey(s: Slice): int {
    if |s.imagePositionPatient| == 3 then s.imagePositionPatient[2].Floor else 0
  }

  lemma SortThree(a: Slice, b: Slice, c: Slice, key: Slice -> int)
    requires key(b) < key(c) < key(a)
    ensures SortByKey([a, b, c], key) == [b, c, a]
  {
    assert [a, b, c][1..] == [b, c] && [b, c][1..] == [c];
    assert SortByKey([c], key) == [c];
    assert SortByKey([b, c], key) == [b, c];
    assert InsertFirst(a, [c], key) == [c, a];
  }

  /** A client of Image3D: three slices added in the order z = 5, 1, 3 keep
      insertion order until sorted and run 1, 3, 5 afterwards. */
  method StackingExample(a: Slice, b: Slice, c: Slice)
    requires a.sopInstanceUID != "" && b.sopInstanceUID != "" && c.sopInstanceUID != ""
    requires StackAxisKey(b) < StackAxisKey(c) < StackAxisKey(a)
  {
    var stack := new Image3D(StackAxisKey);
    stack.Add(a);
    stack.Add(b);
    stack.Add(c);
    assert stack.Get(0) == Success(a);
    var fault := stack.Sort();
    SortThree(a, b, c, StackAxisKey);
    assert stack.Get(0) == Success(b) && stack.Get(2) == Success(a);
  }

  /** A client of Image3D: a slice added after a sort, below every slice
      already in the stack, is what the next position read returns. */
  method ResortExample(stack: Image3D, d: Slice)
    requires stack.Valid() && stack.sorted && d.sopInstanceUID != ""
    requires forall x | x in stack.Elements() :: stack.positionKey(d) < stack.positionKey(x)
    modifies stack
  {
    stack.Add(d);
    assert !stack.sorted;
    ghost var before := stack.images.value;
    var position := stack.ImagePositionPatient();
    ghost var first := stack.images.value[0];
    assert first in before && stack.positionKey(first) <= stack.positionKey(d);
    assert first == d;
    assert position == Success(Some(d.imagePositionPatient));
  }
}
