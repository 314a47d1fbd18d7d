/**
 * The ImageResult FlatBuffer as both sensor-package programs check it: the
 * file identifier, the generated verifier, and the optional metadata table.
 *
 * The generated verifier (VerifySizePrefixedImageResultBuffer) and the
 * generated root accessor (GetSizePrefixedImageResult) are not visible code;
 * together they are the parameter `parse`, which yields the decoded root table
 * of a buffer that verifies and None for one that does not.
 */
module ImageResultFormat {
  import opened Wrappers
  import opened SensorPackage

  /** The ImageMetadata table: width, height and the optional image_id string. */
  datatype ImageMetadata = ImageMetadata(width: int, height: int, imageId: Option<string>)

  /** The ImageResult root table, reduced to its optional metadata field. */
  datatype ImageResult = ImageResult(metadata: Option<ImageMetadata>)

  /** Verification followed by the root accessor: None when the buffer does not verify. */
  type Parser = seq<byte> -> Option<ImageResult>

  /** The schema's file identifier "OSSP" as bytes. */
  const FileIdentifier: seq<byte> := [0x4F, 0x53, 0x53, 0x50]

  /**
   * Where the identifier sits in a size-prefixed buffer: after the 4-byte
   * size prefix and the 4-byte offset of the root table.
   */
  const IdentifierOffset: nat := 8

  /** The smallest buffer that holds a size prefix, a root offset and an identifier. */
  const IdentifiedLength: nat := IdentifierOffset + |FileIdentifier|

  /**
   * BufferHasIdentifier(buf, "OSSP", true) as the code calls it: it compares
   * bytes 8..11 and is only defined on a buffer at least 12 bytes long.
   */
  function IdentifierAsWritten(buf: seq<byte>): (r: bool)
    requires |buf| >= IdentifiedLength
    ensures r <==> forall i :: 0 <= i < 4 ==> buf[IdentifierOffset + i] == FileIdentifier[i]
  {
    buf[IdentifierOffset..IdentifiedLength] == FileIdentifier
  }

  /**
   * The identifier check with the length test the code leaves out: a buffer
   * too short to hold an identifier does not carry one.
   */
  predicate HasIdentifier(buf: seq<byte>) {
    |buf| >= IdentifiedLength && IdentifierAsWritten(buf)
  }

  /** What the decoding chain makes of one buffer. */
  datatype DecodeOutcome =
    | WrongId
    | Corrupt
    | NoMetadata
    | Ok(width: int, height: int, imageId: Option<string>)

  /**
   * The chain both programs run, in its order: identifier, then verification,
   * then the metadata field.
   */
  function Classify(buf: seq<byte>, parse: Parser): (r: DecodeOutcome)
    ensures r == WrongId <==> !HasIdentifier(buf)
    ensures r == Corrupt <==> HasIdentifier(buf) && parse(buf).None?
    ensures r == NoMetadata <==> HasIdentifier(buf) && parse(buf).Some? && parse(buf).value.metadata.None?
    ensures r.Ok? ==> HasIdentifier(buf) && parse(buf) == Some(ImageResult(Some(ImageMetadata(r.width, r.height, r.imageId))))
  {
    if !HasIdentifier(buf) then WrongId
    else match parse(buf)
      case None => Corrupt
      case Some(root) =>
        match root.metadata
        case None => NoMetadata
        case Some(m) => Ok(m.width, m.height, m.imageId)
  }

  /**
   * Verification is never consulted for a buffer without the identifier: two
   * verifiers that disagree everywhere still classify it alike.
   */
  lemma IdentifierPrecedesVerification(buf: seq<byte>, parse: Parser, other: Parser)
    requires !HasIdentifier(buf)
    ensures Classify(buf, parse) == Classify(buf, other) == WrongId
  {
  }
}
