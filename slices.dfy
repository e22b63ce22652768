/** One cross-sectional slice (the Image2D record) and the enumerations its
    accessors return. Only what Image3D reads from a slice is kept. */
module Slices {
  import opened Wrappers

  datatype Modality = UnknownModality | CT | PT | RTStruct | RTDose | Reg

  /** UnknownPosition is the constant the source spells UNKOWN. */
  datatype PatientPosition = UnknownPosition | HFS | HFP | FFS | FFP

  /** NoRepresentation is the constant the source calls NONE. */
  datatype PixelRepresentation = NoRepresentation | Unsigned | Signed

  /** A slice. The two lookup tables stand for Image2D.getValue and
      Image2D.getScaledValue: a (column, row) pair that is absent gives an
      empty result. */
  datatype Slice = Slice(
    sopInstanceUID: string,
    frameOfReferenceUID: string,
    modality: Modality,
    studyInstanceUID: string,
    patientPosition: PatientPosition,
    pixelSpacing: seq<real>,
    imagePositionPatient: seq<real>,
    imageOrientationPatient: seq<real>,
    pixelRepresentation: PixelRepresentation,
    bitsAllocated: int,
    values: map<(int, int), real>,
    scaledValues: map<(int, int), real>)
  {
    function Value(column: int, row: int): Option<real> {
      if (column, row) in values then Some(values[(column, row)]) else None
    }

    function ScaledValue(column: int, row: int): Option<real> {
      if (column, row) in scaledValues then Some(scaledValues[(column, row)]) else None
    }
  }
}
