/** The archive framework's vocabulary as the operations see it: its error
    values, and headers as an ordered sequence of typed fields, each named by a
    three-character key; plus the single-blob envelope written by `encryptData`
    and checked by `decryptData`. */
module ArchiveFormat {
  import opened Wrappers

  /** `ioError` and `invalidValue` are the two errors the operations raise
      themselves; `Raised` stands for any error a framework call throws. */
  datatype ArchiveError = IoError | InvalidValue | Raised(code: int)

  /** A field key: three ASCII characters such as "DAT". */
  type FieldKey = k: string | |k| == 3 witness "DAT"

  const PatKey: FieldKey := "PAT"
  const TypKey: FieldKey := "TYP"
  const DatKey: FieldKey := "DAT"

  /** The path written for a data envelope. */
  const DataPath: string := "data"

  /** The archive framework's numeric entry type for a regular file ('F'). */
  const RegularFileCode: nat := 70

  /** One header field. Kinds the envelope never uses (time stamps, hashes)
      are collapsed into `OtherField`. */
  datatype Field =
    | StringField(key: FieldKey, text: string)
    | UIntField(key: FieldKey, number: nat)
    | BlobField(key: FieldKey, size: nat)
    | OtherField(key: FieldKey)

  type Header = seq<Field>

  /** The position of the first field named `key`, if any. */
  function FieldIndex(h: Header, key: FieldKey): (r: Option<nat>)
    ensures r.Some? ==> r.value < |h| && h[r.value].key == key
    ensures r.Some? ==> forall j :: 0 <= j < r.value ==> h[j].key != key
    ensures r.None? <==> forall j :: 0 <= j < |h| ==> h[j].key != key
  {
    if |h| == 0 then None
    else if h[0].key == key then Some(0)
    else match FieldIndex(h[1..], key)
      case None => None
      case Some(i) => Some(i + 1)
  }

  /** Field lookup by key, taken to return the first field with that key. */
  function FindField(h: Header, key: FieldKey): (r: Option<Field>)
    ensures r.Some? ==> r.value in h && r.value.key == key
    ensures r.None? <==> forall f :: f in h ==> f.key != key
  {
    match FieldIndex(h, key)
    case None => None
    case Some(i) => Some(h[i])
  }

  /** The header `encryptData` writes for a payload of `size` bytes. */
  function EnvelopeHeader(size: nat): (h: Header)
    ensures |h| == 3
    ensures h[0] == StringField(PatKey, DataPath)
    ensures h[1] == UIntField(TypKey, RegularFileCode)
    ensures h[2] == BlobField(DatKey, size)
  {
    [StringField(PatKey, DataPath), UIntField(TypKey, RegularFileCode), BlobField(DatKey, size)]
  }

  /** `decryptData`'s check of the header it read (`None` when no header was
      read): the payload size declared by the DAT field, or `InvalidValue`. */
  function ValidateEnvelope(h: Option<Header>): (r: Result<nat, ArchiveError>)
    ensures r.Failure? ==> r.error == InvalidValue
    ensures r.Success? ==> h.Some? && BlobField(DatKey, r.value) in h.value && r.value > 0
    ensures h.None? ==> r.Failure?
    ensures h.Some? && (forall f :: f in h.value ==> f.key != DatKey) ==> r.Failure?
    ensures h.Some? ==>
              forall i :: 0 <= i < |h.value| && h.value[i].key == DatKey
                          && (forall j :: 0 <= j < i ==> h.value[j].key != DatKey) ==>
                r == (if h.value[i].BlobField? && h.value[i].size > 0
                      then Success(h.value[i].size) else Failure(InvalidValue))
  {
    if h.None? then Failure(InvalidValue)
    else match FindField(h.value, DatKey)
      case None => Failure(InvalidValue)
      case Some(dat) =>
        if dat.BlobField? && dat.size > 0 then Success(dat.size) else Failure(InvalidValue)
  }

  /** The envelope header validates, with the size it was built with, exactly
      when that size is positive; an empty payload is written but rejected. */
  lemma EnvelopeRoundTrip(size: nat)
    ensures size > 0 ==> ValidateEnvelope(Some(EnvelopeHeader(size))) == Success(size)
    ensures size == 0 ==> ValidateEnvelope(Some(EnvelopeHeader(size))) == Failure(InvalidValue)
  {
    var h := EnvelopeHeader(size);
    assert h[0].key != DatKey && h[1].key != DatKey;
    assert FieldIndex(h, DatKey) == Some(2);
  }
}
