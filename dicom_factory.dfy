/** DicomFactory: reads one file's attribute set, routes it by its SOP Class
    UID to the one decoder for that class, and records the decoded object
    in the matching slot of a DicomObject; reads a list of files; writes an
    RT Dose object.

    The file system and the binary stream codec are not modelled: a file is
    the record of what the checks and the stream reader observe, and the
    per-class decoders and the dose encoder are function values passed in. */
module DicomFactory {
  import opened Wrappers

  type Tag = int

  /** (0008,0016) SOP Class UID. */
  const SOPClassUIDTag: Tag := 0x0008_0016

  /** A decoded attribute set: tag to string value. */
  type Attributes = map<Tag, string>

  datatype ByteOrder = BigEndian | LittleEndian

  // The supported storage SOP classes (DICOM PS3.4 Annex B, UIDs as listed in PS3.6).
  const CTImageStorage := "1.2.840.10008.5.1.4.1.1.2"
  const PositronEmissionTomographyImageStorage := "1.2.840.10008.5.1.4.1.1.128"
  const RTStructureSetStorage := "1.2.840.10008.5.1.4.1.1.481.3"
  const RTDoseStorage := "1.2.840.10008.5.1.4.1.1.481.2"
  const SpatialRegistrationStorage := "1.2.840.10008.5.1.4.1.1.66.1"

  // The typed objects the decoders produce. Their fields belong to the
  // decoders, which are not part of this model; each keeps the attribute
  // set it was decoded from.
  datatype CT = CT(attributes: Attributes)
  datatype PT = PT(attributes: Attributes)
  datatype StructureSet = StructureSet(attributes: Attributes)
  datatype RTDose = RTDose(attributes: Attributes)
  datatype SpatialRegistration = SpatialRegistration(attributes: Attributes)

  /** The per-class decoders (Reader.ct, Reader.pt, Reader.structureSet,
      Reader.rtDose, Reader.spatialRegistration), each taking the file meta
      information, the dataset and the stream's byte order. */
  datatype Decoders = Decoders(
    ct: (Attributes, Attributes, ByteOrder) -> Option<CT>,
    pt: (Attributes, Attributes, ByteOrder) -> Option<PT>,
    structureSet: (Attributes, Attributes, ByteOrder) -> Option<StructureSet>,
    rtDose: (Attributes, Attributes, ByteOrder) -> Option<RTDose>,
    spatialRegistration: (Attributes, Attributes, ByteOrder) -> Option<SpatialRegistration>)

  /** One slot per supported class, and the path of the file read. */
  datatype DicomObject = DicomObject(
    ct: Option<CT>,
    pt: Option<PT>,
    structureSet: Option<StructureSet>,
    rtDose: Option<RTDose>,
    spatialRegistration: Option<SpatialRegistration>,
    pathname: Option<string>)

  /** A freshly constructed DicomObject. */
  const Empty := DicomObject(None, None, None, None, None, None)

  function SlotCount(d: DicomObject): nat {
    (if d.ct.Some? then 1 else 0) + (if d.pt.Some? then 1 else 0)
    + (if d.structureSet.Some? then 1 else 0) + (if d.rtDose.Some? then 1 else 0)
    + (if d.spatialRegistration.Some? then 1 else 0)
  }

  predicate NoSlot(d: DicomObject) {
    SlotCount(d) == 0
  }

  /** A file as the Java code observes it: the two file-system checks, the
      absolute path, and what the stream reader returns for it (file meta
      information, whether the stream is big-endian, the dataset). */
  datatype DicomFile = DicomFile(
    isFile: bool,
    canRead: bool,
    absolutePath: string,
    meta: Attributes,
    bigEndian: bool,
    dataset: Attributes)

  function StreamByteOrder(f: DicomFile): ByteOrder {
    if f.bigEndian then BigEndian else LittleEndian
  }

  /** The supported classes, to state the dispatch rule once for all five. */
  datatype SopClass = CTImage | PETImage | RTStructureSet | RTDoseImage | SpatialReg

  function Uid(c: SopClass): string {
    match c
    case CTImage => CTImageStorage
    case PETImage => PositronEmissionTomographyImageStorage
    case RTStructureSet => RTStructureSetStorage
    case RTDoseImage => RTDoseStorage
    case SpatialReg => SpatialRegistrationStorage
  }

  const SupportedUids: set<string> := {CTImageStorage, PositronEmissionTomographyImageStorage,
    RTStructureSetStorage, RTDoseStorage, SpatialRegistrationStorage}

  /** Whether the slot of class `c` is set. */
  predicate HasSlot(d: DicomObject, c: SopClass) {
    match c
    case CTImage => d.ct.Some?
    case PETImage => d.pt.Some?
    case RTStructureSet => d.structureSet.Some?
    case RTDoseImage => d.rtDose.Some?
    case SpatialReg => d.spatialRegistration.Some?
  }

  /** Whether the decoder for class `c` yields an object for these inputs. */
  predicate Decodes(dec: Decoders, c: SopClass, meta: Attributes, dataset: Attributes, bo: ByteOrder) {
    match c
    case CTImage => dec.ct(meta, dataset, bo).Some?
    case PETImage => dec.pt(meta, dataset, bo).Some?
    case RTStructureSet => dec.structureSet(meta, dataset, bo).Some?
    case RTDoseImage => dec.rtDose(meta, dataset, bo).Some?
    case SpatialReg => dec.spatialRegistration(meta, dataset, bo).Some?
  }

  /** The switch on the SOP Class UID: the decoder of the matching class
      alone is applied, and what it yields, if anything, fills that slot. */
  function Dispatch(sopClassUID: string, meta: Attributes, dataset: Attributes, bo: ByteOrder,
                    dec: Decoders): (d: DicomObject)
    ensures SlotCount(d) <= 1
    ensures d.pathname == None
    ensures forall c :: HasSlot(d, c) <==> sopClassUID == Uid(c) && Decodes(dec, c, meta, dataset, bo)
    ensures d.ct.Some? ==> d.ct == dec.ct(meta, dataset, bo)
    ensures d.pt.Some? ==> d.pt == dec.pt(meta, dataset, bo)
    ensures d.structureSet.Some? ==> d.structureSet == dec.structureSet(meta, dataset, bo)
    ensures d.rtDose.Some? ==> d.rtDose == dec.rtDose(meta, dataset, bo)
    ensures d.spatialRegistration.Some? ==> d.spatialRegistration == dec.spatialRegistration(meta, dataset, bo)
    ensures sopClassUID !in SupportedUids ==> NoSlot(d)
  {
    if sopClassUID == CTImageStorage then
      Empty.(ct := dec.ct(meta, dataset, bo))
    else if sopClassUID == PositronEmissionTomographyImageStorage then
      Empty.(pt := dec.pt(meta, dataset, bo))
    else if sopClassUID == RTStructureSetStorage then
      Empty.(structureSet := dec.structureSet(meta, dataset, bo))
    else if sopClassUID == RTDoseStorage then
      Empty.(rtDose := dec.rtDose(meta, dataset, bo))
    else if sopClassUID == SpatialRegistrationStorage then
      Empty.(spatialRegistration := dec.spatialRegistration(meta, dataset, bo))
    else
      Empty
  }

  /** read(File). None is a null file. */
  function ReadFile(file: Option<DicomFile>, dec: Decoders): (d: DicomObject)
    ensures file == None || !file.value.isFile || !file.value.canRead ==> d == Empty
    ensures file.Some? && SOPClassUIDTag !in file.value.dataset ==> d == Empty
    ensures d.pathname.Some? <==>
      file.Some? && file.value.isFile && file.value.canRead && SOPClassUIDTag in file.value.dataset
    ensures d.pathname.Some? ==> d.pathname.value == file.value.absolutePath
    ensures SlotCount(d) <= 1
    ensures forall c :: HasSlot(d, c) <==>
      && d.pathname.Some?
      && file.value.dataset[SOPClassUIDTag] == Uid(c)
      && Decodes(dec, c, file.value.meta, file.value.dataset, StreamByteOrder(file.value))
  {
    match file
    case None => Empty
    case Some(f) =>
      if !f.isFile || !f.canRead then Empty
      else if SOPClassUIDTag !in f.dataset then Empty
      else
        var d := Dispatch(f.dataset[SOPClassUIDTag], f.meta, f.dataset, StreamByteOrder(f), dec);
        d.(pathname := Some(f.absolutePath))
  }

  /** read(Path): a null path gives an empty object, any other path is read
      as the file it denotes. */
  function ReadPath(path: Option<DicomFile>, dec: Decoders): (d: DicomObject)
    ensures path == None ==> d == Empty
    ensures path.Some? ==> d == ReadFile(path, dec)
  {
    if path == None then Empty else ReadFile(Some(path.value), dec)
  }

  /** read(String): `files` resolves a pathname to the file it names.
      `new File(pathname)` is never null, so this is the read of that file
      and never the null-file case. */
  function ReadPathname(pathname: string, files: string -> DicomFile, dec: Decoders): (d: DicomObject)
    ensures d == ReadFile(Some(files(pathname)), dec)
    ensures d.pathname.Some? ==> d.pathname.value == files(pathname).absolutePath
  {
    ReadFile(Some(files(pathname)), dec)
  }

  /** read(List<String>): one object per pathname, in order. None is a null
      list. */
  method ReadAll(pathnames: Option<seq<string>>, files: string -> DicomFile, dec: Decoders)
    returns (list: seq<DicomObject>)
    ensures pathnames == None ==> list == []
    ensures pathnames.Some? ==> |list| == |pathnames.value|
    ensures pathnames.Some? ==>
      forall i :: 0 <= i < |list| ==> list[i] == ReadPathname(pathnames.value[i], files, dec)
  {
    if pathnames == None || pathnames.value == [] {
      return [];
    }
    list := [];
    for i := 0 to |pathnames.value|
      invariant |list| == i
      invariant forall j :: 0 <= j < i ==> list[j] == ReadPathname(pathnames.value[j], files, dec)
    {
      var doj := ReadPathname(pathnames.value[i], files, dec);
      list := list + [doj];
    }
  }

  /** What write(File, RTDose) does: whether it opened an output stream on
      the file (which creates or truncates it), the dataset it wrote, whether
      it closed the stream, and the value it returns. */
  datatype WriteOutcome = WriteOutcome(fileOpened: bool, written: Option<Attributes>, closed: bool, success: bool)

  /** write(File, RTDose) as written. None is a null file; `encode` is
      Writer.rtdose. The stream is opened before the encoder's result is
      checked, so a failed encoding still leaves an opened, unclosed file. */
  function Write(file: Option<string>, dose: RTDose, encode: RTDose -> Option<Attributes>): (w: WriteOutcome)
    ensures file == None ==> !w.fileOpened && !w.success
    ensures w.success <==> file.Some? && encode(dose).Some?
    ensures w.written == (if w.success then encode(dose) else None)
    ensures w.fileOpened <==> file.Some?
    ensures w.closed <==> w.success
  {
    if file == None then WriteOutcome(false, None, false, false)
    else
      var attributes := encode(dose);
      if attributes == None then WriteOutcome(true, None, false, false)
      else WriteOutcome(true, attributes, true, true)
  }

  /** The discrepancy: an encoder that fails still leaves the target opened
      and never closed. */
  lemma WriteOpensTargetOnFailedEncoding(file: string, dose: RTDose, encode: RTDose -> Option<Attributes>)
    requires encode(dose) == None
    ensures var w := Write(Some(file), dose, encode); w.fileOpened && !w.closed && !w.success
  {
  }

  /** The intended write: it reports failure and leaves no file behind when
      encoding fails. The target is opened only once the encoder has
      produced a dataset, and every opened stream is closed. */
  function WriteGuarded(file: Option<string>, dose: RTDose, encode: RTDose -> Option<Attributes>): (w: WriteOutcome)
    ensures w.success <==> file.Some? && encode(dose).Some?
    ensures w.written == (if w.success then encode(dose) else None)
    ensures w.fileOpened <==> w.success
    ensures w.closed <==> w.fileOpened
  {
    if file == None then WriteOutcome(false, None, false, false)
    else
      var attributes := encode(dose);
      if attributes == None then WriteOutcome(false, None, false, false)
      else WriteOutcome(true, attributes, true, true)
  }

  /** Both writes agree on the result and on what is written; they differ
      only in leaving a file behind when encoding fails. */
  lemma WriteGuardedAgreesWithWrite(file: Option<string>, dose: RTDose, encode: RTDose -> Option<Attributes>)
    ensures WriteGuarded(file, dose, encode).success == Write(file, dose, encode).success
    ensures WriteGuarded(file, dose, encode).written == Write(file, dose, encode).written
    ensures Write(file, dose, encode).success ==> WriteGuarded(file, dose, encode) == Write(file, dose, encode)
  {
  }
}
