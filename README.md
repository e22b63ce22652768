# rtkj core: slice stack and DICOM object dispatcher

This project models, in Dafny, the two components of rtkj (a Java library for radiotherapy DICOM data) that carry its logic, and proves properties of the model.

1. **Image3D**, the slice stack that assembles 2D slices (Image2D) into a volume. It holds a list of slices, which stays null until the first `add`, a `sorted` flag and a slice comparator. The discipline is invalidate on write, repair on read:
   - `add` appends a slice and clears the flag.
   - `sort` sorts the list and sets the flag.
   - The position-dependent reads (`getImagePositionPatient`, `getValue`, `getScaledValue`) sort first when the flag is clear.
   - The other accessors read the first slice in the list's current order.

   It is modelled as class `Volume.Image3D`, with these fields:
   - `images: Option<seq<Slice>>`, where `None` is the null list;
   - `sorted: bool`;
   - `positionKey: Slice -> int`, the comparator.

   The object invariant `Valid()` says that a stack whose flag is set really is sorted. Every method keeps it. Because of it, each position-dependent read leaves the list equal to the stable sort of the list it found, whether or not the read had to sort.
2. **DicomFactory**, the dispatcher. It reads one file's dataset, looks up the SOP Class UID (tag (0008,0016)), and sends the dataset to the one decoder for that class. There are five supported classes, the storage SOP classes of DICOM PS3.4 Annex B:
   - CT Image Storage;
   - PET Image Storage;
   - RT Structure Set Storage;
   - RT Dose Storage;
   - Spatial Registration Storage.

   The decoded object goes into the matching slot of a `DicomObject`. The factory also reads a list of pathnames and writes an RT Dose object. It is modelled as module `DicomFactory`:
   - a file is a `DicomFile` record of what the file-system checks and the stream reader observe;
   - the decoders (`Reader.ct`, `Reader.pt`, `Reader.structureSet`, `Reader.rtDose`, `Reader.spatialRegistration`) are a `Decoders` record of function values;
   - the dose encoder (`Writer.rtdose`) is a function parameter;
   - `read(String)` resolves its pathname through a function parameter `files`. That is `DicomFactory.ReadPathname`.

The comparator orders slices by where their positions fall along the stacking axis. The model reduces that to an integer key, which makes the comparator a total preorder. `java.util.List.sort` is documented to be stable, so the model of the library sort is `SliceOrder.SortByKey`, a stable insertion sort. `SliceOrder.StableSortIsSortByKey` proves that every stable sort by the same key gives the same sequence. So the model does not depend on which stable algorithm the library uses.

The Java methods throw null-pointer and index-out-of-range exceptions. The model returns them as `Result` failures (`Volume.Fault`).

Modules:
- `Wrappers`: Option and Result.
- `SliceOrder`: the sort and its lemmas.
- `Slices`: the Image2D record and its enumerations.
- `Volume`: Image3D, plus two client methods, `StackingExample` and `ResortExample`. They show that the contracts are enough to follow a stack through adds, a sort and a re-sort.
- `DicomFactory`.

## Model

| member | source | states |
|---|---|---|
| `Volume.Image3D.constructor` | src/main/java/org/rt/rtkj/model/Image3D.java:15-17 | a new stack has no list (null), is not marked sorted, and orders by the given comparator key |
| `Volume.Image3D.Add` | src/main/java/org/rt/rtkj/model/Image3D.java:19-24 | the list always exists afterwards; an empty SOP Instance UID leaves the list and the flag as they were; any other slice is appended at the end with earlier slices unchanged and in order, and the flag is cleared; the first slice of a non-empty stack never changes; the sorted invariant is kept |
| `Volume.Image3D.Get` | src/main/java/org/rt/rtkj/model/Image3D.java:26-28 | fails with a null reference when there is no list, with index out of bounds outside `[0, size)`, and otherwise returns exactly `images[index]`; as a function it changes nothing |
| `Volume.Image3D.Size` | src/main/java/org/rt/rtkj/model/Image3D.java:30-32 | 0 when the list was never created, its length otherwise |
| `Volume.Image3D.Sort` | src/main/java/org/rt/rtkj/model/Image3D.java:34-37 | faults and changes nothing when there is no list; otherwise the new list is a stable sort of the old one (non-decreasing by key, a permutation, equal-key slices in their old order) and the flag is set |
| `Volume.Image3D.EnsureSorted` | src/main/java/org/rt/rtkj/model/Image3D.java:85-86 | the shared repair-on-read step: sorted or not, afterwards the list is the stable sort of the list before the call and the flag is set; with no list it faults |
| `Volume.Image3D.FrameOfReferenceUID` | src/main/java/org/rt/rtkj/model/Image3D.java:39-42 | faults when there is no list, `""` on an empty list, otherwise the first slice's frame of reference UID, without sorting |
| `Volume.Image3D.GetModality` | src/main/java/org/rt/rtkj/model/Image3D.java:44-47 | faults when there is no list, UNKNOWN on an empty list, otherwise the first slice's modality |
| `Volume.Image3D.StudyInstanceUID` | src/main/java/org/rt/rtkj/model/Image3D.java:49-52 | faults when there is no list, `""` on an empty list, otherwise the first slice's study UID |
| `Volume.Image3D.GetPatientPosition` | src/main/java/org/rt/rtkj/model/Image3D.java:54-57 | faults when there is no list, UNKOWN on an empty list, otherwise the first slice's patient position |
| `Volume.Image3D.PixelSpacing` | src/main/java/org/rt/rtkj/model/Image3D.java:59-62 | faults when there is no list, null (None) on an empty list, otherwise the first slice's pixel spacing |
| `Volume.Image3D.ImagePositionPatient` | src/main/java/org/rt/rtkj/model/Image3D.java:64-68 | faults when there is no list; an empty list gives an empty result and no change; otherwise the stack is left sorted, equal to the stable sort of the old list, and the result is the position of its first slice, a slice of the old list whose key is the least of all |
| `Volume.Image3D.ImageOrientationPatient` | src/main/java/org/rt/rtkj/model/Image3D.java:70-73 | faults when there is no list, null (None) on an empty list, otherwise the first slice's orientation |
| `Volume.Image3D.GetPixelRepresentation` | src/main/java/org/rt/rtkj/model/Image3D.java:75-78 | faults when there is no list, NONE on an empty list, otherwise the first slice's pixel representation |
| `Volume.Image3D.BitsAllocated` | src/main/java/org/rt/rtkj/model/Image3D.java:80-83 | faults when there is no list, 0 on an empty list, otherwise the first slice's bits allocated |
| `Volume.Image3D.GetValue` | src/main/java/org/rt/rtkj/model/Image3D.java:85-91 | faults when there is no list; otherwise the stack is left sorted (the stable sort of the old list), a depth outside `[0, size)` gives an empty result, and any other depth gives the lookup at (column, row) of the slice at that depth of the sorted stack |
| `Volume.Image3D.GetScaledValue` | src/main/java/org/rt/rtkj/model/Image3D.java:93-99 | as GetValue, with the slice's scaled lookup |
| `SliceOrder.InsertFirstPermutes` | src/main/java/org/rt/rtkj/model/Image3D.java:35 | inserting a slice into a list adds exactly that slice to its multiset |
| `SliceOrder.InsertFirstSorted` | src/main/java/org/rt/rtkj/model/Image3D.java:35 | inserting into a sorted list keeps it sorted |
| `SliceOrder.InsertFirstWithKey` | src/main/java/org/rt/rtkj/model/Image3D.java:35 | insertion puts the new slice ahead of every slice with its key, so each key class gains it at its front |
| `SliceOrder.SortByKeyPermutes` | src/main/java/org/rt/rtkj/model/Image3D.java:35 | the sort is a permutation of its input |
| `SliceOrder.SortByKeySorted` | src/main/java/org/rt/rtkj/model/Image3D.java:35 | the sort is non-decreasing under the comparator key |
| `SliceOrder.SortByKeyStable` | src/main/java/org/rt/rtkj/model/Image3D.java:35 | slices with equal keys keep their relative order (List.sort is stable) |
| `SliceOrder.SortByKeyIsStableSort` | src/main/java/org/rt/rtkj/model/Image3D.java:35 | the sort is sorted, a permutation, and stable |
| `SliceOrder.WithKeyOfSortedBelowHead` | src/main/java/org/rt/rtkj/model/Image3D.java:35 | a sorted list has no slice with a key below its head's |
| `SliceOrder.StableSortUnique` | src/main/java/org/rt/rtkj/model/Image3D.java:35 | two sorted lists with the same slices in the same order within every key class are equal |
| `SliceOrder.StableSortIsSortByKey` | src/main/java/org/rt/rtkj/model/Image3D.java:35 | a list is a stable sort of the input if and only if it equals SortByKey of it, so any stable library sort agrees with the model |
| `SliceOrder.SortByKeyOfSorted` | src/main/java/org/rt/rtkj/model/Image3D.java:66 | sorting a sorted list changes nothing, so skipping the sort when the flag is set is sound |
| `SliceOrder.SortedHeadIsMinimal` | src/main/java/org/rt/rtkj/model/Image3D.java:66-67 | the first slice of a sorted list has the least key of all its slices |
| `DicomFactory.Dispatch` | src/main/java/org/rt/rtkj/dicom/DicomFactory.java:50-75 | for each supported class, only that class's decoder is consulted, with the file meta information, the dataset and the stream's byte order; its slot is set exactly when the decoder yields a value, and then to that value; at most one slot is ever set; any other UID sets no slot; no path is set |
| `DicomFactory.ReadFile` | src/main/java/org/rt/rtkj/dicom/DicomFactory.java:35-78 | a null, non-regular or unreadable file gives an empty object; a dataset without SOPClassUID gives an empty object with no path; on every other path the pathname is the file's absolute path; at most one slot is set; slot X is set exactly when the UID is X's and X's decoder yields a value |
| `DicomFactory.ReadPathname` | src/main/java/org/rt/rtkj/dicom/DicomFactory.java:25-28 | a pathname is read as the file it names, which is never null, so the result is that file's read and any recorded path is that file's absolute path |
| `DicomFactory.ReadPath` | src/main/java/org/rt/rtkj/dicom/DicomFactory.java:30-33 | a null path gives an empty object; any other path gives what reading its file gives |
| `DicomFactory.ReadAll` | src/main/java/org/rt/rtkj/dicom/DicomFactory.java:80-88 | a null or empty list gives an empty list; otherwise the output has the input's length and element i is the object read from pathname i |
| `DicomFactory.Write` | src/main/java/org/rt/rtkj/dicom/DicomFactory.java:99-114 | false for a null file, with nothing opened; true exactly when the file is non-null and the encoder yields a dataset, which is then the dataset written and the stream is closed; a non-null file is always opened, even when the encoder fails |
| `DicomFactory.WriteOpensTargetOnFailedEncoding` | src/main/java/org/rt/rtkj/dicom/DicomFactory.java:103-109 | when the encoder yields nothing, write opens the target, returns false and leaves the stream unclosed |
| `DicomFactory.WriteGuarded` | src/main/java/org/rt/rtkj/dicom/DicomFactory.java:99-114 | the corrected write: same result and same dataset written, but the target is opened only when the encoder succeeds, and every opened stream is closed |
| `DicomFactory.WriteGuardedAgreesWithWrite` | src/main/java/org/rt/rtkj/dicom/DicomFactory.java:99-114 | the corrected write returns the same value and writes the same dataset as the write as written, and is identical to it whenever encoding succeeds |

## Left out

- Lombok `@Data` on Image3D also generates setters, among them `setImages` and `setSorted`. These could set the flag on an unsorted list and break `Valid()`. They are not modelled.
- The generated `getImages()` returns the live list itself. A caller holding it can append to it or reorder it without clearing `sorted`, which breaks `Valid()` as well. The model has no aliasing of the list: only Image3D's own methods change `images`.
- The comparator's internals: double-valued projection of the position onto the orientation normal. It is abstracted to an integer key. A comparator that breaks its contract, such as one on NaN coordinates that makes the library sort throw, is not modelled.
- Image2D's `getValue` and `getScaledValue` bodies (rescale slope and intercept on doubles) are not part of this model. Each is a lookup table in `Slices.Slice` that yields an empty result for a missing (column, row).
- Null values inside a slice are not modelled. A null SOP Instance UID makes `add` throw, and a null position array makes `Optional.of` throw. The slice's arrays are sequences and its UID a string. A null slice passed to `add` is not modelled either.
- 32-bit `int` limits on list size and indices are not modelled; sizes are unbounded naturals.
- Stream decoding and encoding (`DicomInputStream`, `readFileMetaInformation`, `readDataset`, `bigEndian`, `DicomOutputStream`) are replaced by the fields of `DicomFile` and by the outcome record of write. `IOException` and `DicomException` propagation is not modelled.
- The bodies of the decoders and of `Writer.rtdose` are not part of this model; they are parameters. `DicomObject.set` and the typed objects are not shown either. The typed objects are modelled as records carrying their attribute set, and `set` as filling the slot of the object's class.
- A SOPClassUID element that is present but has no value is not modelled. Its `getString` gives null and the `switch` then throws. Datasets map each present tag to a string.
- A null entry in the pathname list (`new File(null)` throws) is not modelled. Neither is the resolution of a pathname or a `Path` to a `File`: that is the `files` parameter, and `ReadPath` takes the resolved file.
- The `write(String, RTDose)` and `write(Path, RTDose)` overloads are not modelled. They only convert their argument to a `File`, and `write(Path)` throws on a null path.
- Logging (`log.error`) is left out.
- `read(File)` opens a `DicomInputStream` on the file and never closes it, on any path. `DicomFile` records what the stream yields, not whether it stays open, so the model does not show this input-stream leak.
- `ReadFile` follows the code on a dataset without SOPClassUID: it returns before the path is set, so no path is recorded. The intended behaviour is to record the absolute path on every partial failure. That holds in the model for the unsupported-UID and empty-decoder paths, but not for this one.
- A batch read is meant to never stop early. In the code, an exception from one read does stop it. Since exceptions are not modelled, `ReadAll` always reads every entry.

## Findings

| source | as written | input that shows it | evidently intended | confidence | as-written member | corrected member |
|---|---|---|---|---|---|---|
| src/main/java/org/rt/rtkj/dicom/DicomFactory.java:103-109 | the `DicomOutputStream` is opened on the target, which creates or truncates that file, before the encoder's result is checked; on the `return false` path it is never closed | a non-null file together with a dose for which `Writer.rtdose` returns empty | when encoding fails, write reports failure and leaves no file behind, created, truncated or held open | not executed; high that the file is opened and left unclosed, medium that this was unintended | `DicomFactory.WriteOpensTargetOnFailedEncoding` | `DicomFactory.WriteGuarded` |
