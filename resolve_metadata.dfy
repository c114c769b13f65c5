/** Classification of a JSON property name, given as its raw UTF-8 bytes, into
    one of the reserved reference-preservation metadata names `$id`, `$ref`,
    `$values` or ordinary data. Three alternative classifiers are modelled:
    a plain comparison against the `$`-less constants, a `$`-then-length
    dispatch that compares the tail against those constants, and a
    `$`-then-length dispatch that compares byte by byte. */
module ResolveMetadata {

  type Byte = b: int | 0 <= b < 256

  /** The result of classifying a property name. */
  datatype MetadataPropertyName = NoMetadata | Values | Id | Ref

  const DOLLAR: Byte := '$' as int

  /** The constants compared against; they do not carry the leading `$`. */
  const S_ID: seq<Byte> := ['i' as int, 'd' as int]
  const S_REF: seq<Byte> := ['r' as int, 'e' as int, 'f' as int]
  const S_VALUES: seq<Byte> := ['v' as int, 'a' as int, 'l' as int, 'u' as int, 'e' as int, 's' as int]

  /** The three reserved names as they appear in a document. */
  const ID_NAME: seq<Byte> := [DOLLAR] + S_ID
  const REF_NAME: seq<Byte> := [DOLLAR] + S_REF
  const VALUES_NAME: seq<Byte> := [DOLLAR] + S_VALUES

  /** The bytes of an ASCII string (what a UTF-8 encoder yields for it). */
  function AsciiBytes(s: string): (b: seq<Byte>)
    requires forall k :: 0 <= k < |s| ==> s[k] as int < 128
    ensures |b| == |s|
    ensures forall k :: 0 <= k < |s| ==> b[k] == s[k] as int
  {
    seq(|s|, k requires 0 <= k < |s| => s[k] as int)
  }

  /** Compares the whole name against the `$`-less constants. */
  function GetMetadataUsingSequenceEquals(propertyName: seq<Byte>): (r: MetadataPropertyName)
    ensures r == Id <==> propertyName == S_ID
    ensures r == Ref <==> propertyName == S_REF
    ensures r == Values <==> propertyName == S_VALUES
  {
    if propertyName == S_ID then Id
    else if propertyName == S_REF then Ref
    else if propertyName == S_VALUES then Values
    else NoMetadata
  }

  /** Checks for a leading `$`, dispatches on the length and compares the
      rest of the name against the `$`-less constants. */
  function GetMetadataUsingSequenceEquals2(propertyName: seq<Byte>): (r: MetadataPropertyName)
    requires |propertyName| > 0
    ensures r != NoMetadata ==> propertyName[0] == DOLLAR
    ensures r == Id <==> propertyName == ID_NAME
    ensures r == Ref <==> propertyName == REF_NAME
    ensures r == Values <==> propertyName == VALUES_NAME
  {
    if propertyName[0] == DOLLAR then
      match |propertyName|
      case 3 => if propertyName[1..] == S_ID then Id else NoMetadata
      case 4 => if propertyName[1..] == S_REF then Ref else NoMetadata
      case 7 => if propertyName[1..] == S_VALUES then Values else NoMetadata
      case _ => NoMetadata
    else
      NoMetadata
  }

  /** Checks for a leading `$`, dispatches on the length and compares the
      remaining bytes one at a time. */
  function GetMetadataPropertyName(propertyName: seq<Byte>): (r: MetadataPropertyName)
    requires |propertyName| > 0
    ensures r == Id <==> propertyName == ID_NAME
    ensures r == Ref <==> propertyName == REF_NAME
    ensures r == Values <==> propertyName == VALUES_NAME
    ensures r == NoMetadata <==> propertyName !in {ID_NAME, REF_NAME, VALUES_NAME}
  {
    if propertyName[0] == DOLLAR then
      match |propertyName|
      case 3 =>
        if propertyName[1] == 'i' as int && propertyName[2] == 'd' as int then Id else NoMetadata
      case 4 =>
        if propertyName[1] == 'r' as int && propertyName[2] == 'e' as int && propertyName[3] == 'f' as int
        then Ref else NoMetadata
      case 7 =>
        if propertyName[1] == 'v' as int && propertyName[2] == 'a' as int && propertyName[3] == 'l' as int
           && propertyName[4] == 'u' as int && propertyName[5] == 'e' as int && propertyName[6] == 's' as int
        then Values else NoMetadata
      case _ => NoMetadata
    else
      NoMetadata
  }

  /** The cheap rejection path: without a leading `$` nothing is metadata. */
  lemma NoDollarIsNoMetadata(propertyName: seq<Byte>)
    requires |propertyName| > 0 && propertyName[0] != DOLLAR
    ensures GetMetadataPropertyName(propertyName) == NoMetadata
    ensures GetMetadataUsingSequenceEquals2(propertyName) == NoMetadata
  {
  }

  /** Only names of length 3, 4 or 7 can be metadata, whatever their bytes. */
  lemma OtherLengthsAreNoMetadata(propertyName: seq<Byte>)
    requires |propertyName| > 0 && |propertyName| !in {3, 4, 7}
    ensures GetMetadataPropertyName(propertyName) == NoMetadata
    ensures GetMetadataUsingSequenceEquals2(propertyName) == NoMetadata
  {
  }

  /** The two length-dispatch classifiers agree on every non-empty name. */
  lemma SequenceEquals2AgreesWithPropertyName(propertyName: seq<Byte>)
    requires |propertyName| > 0
    ensures GetMetadataUsingSequenceEquals2(propertyName) == GetMetadataPropertyName(propertyName)
  {
  }

  /** After a leading `$`, the length-dispatch classifier is the whole-name
      comparison applied to the rest of the name. */
  lemma PropertyNameIsSequenceEqualsOfTail(propertyName: seq<Byte>)
    requires |propertyName| > 0 && propertyName[0] == DOLLAR
    ensures GetMetadataPropertyName(propertyName) == GetMetadataUsingSequenceEquals(propertyName[1..])
  {
  }

  /** The whole-name classifier disagrees with the other two on every
      reserved name: it sees the document's `$id`, `$ref` and `$values` as
      ordinary data, and classifies the `$`-less spellings instead. */
  lemma SequenceEqualsDisagrees(propertyName: seq<Byte>)
    requires propertyName in {ID_NAME, REF_NAME, VALUES_NAME}
    ensures GetMetadataUsingSequenceEquals(propertyName) == NoMetadata
    ensures GetMetadataPropertyName(propertyName) != NoMetadata
    ensures GetMetadataUsingSequenceEquals(propertyName[1..]) == GetMetadataPropertyName(propertyName)
  {
    PropertyNameIsSequenceEqualsOfTail(propertyName);
  }

  /** The `$`-less spellings are metadata only for the whole-name classifier. */
  lemma UnprefixedNamesDisagree(propertyName: seq<Byte>)
    requires propertyName in {S_ID, S_REF, S_VALUES}
    ensures GetMetadataUsingSequenceEquals(propertyName) != NoMetadata
    ensures GetMetadataPropertyName(propertyName) == NoMetadata
    ensures GetMetadataUsingSequenceEquals2(propertyName) == NoMetadata
  {
  }

  /** The property names the benchmark is run with, as UTF-8 bytes. */
  lemma BenchmarkNames()
    ensures GetMetadataPropertyName(AsciiBytes("$id")) == Id
    ensures GetMetadataPropertyName(AsciiBytes("$ref")) == Ref
    ensures GetMetadataPropertyName(AsciiBytes("$values")) == Values
    ensures GetMetadataPropertyName(AsciiBytes("$idddd")) == NoMetadata
    ensures GetMetadataPropertyName(AsciiBytes("values")) == NoMetadata
    ensures GetMetadataUsingSequenceEquals(AsciiBytes("$id")) == NoMetadata
    ensures GetMetadataUsingSequenceEquals(AsciiBytes("values")) == Values
  {
  }
}
