/**
  Loading the two remote Parquet files (app.py `load_cleaned_trips` and
  `load_zones`): a downloaded body is handed to the Parquet reader only if
  it opens with the 4-byte magic "PAR1" that begins every Apache Parquet
  file (Parquet format specification, section "File Format").
 */
module Payload {
  import opened Trips

  /** "PAR1" in ASCII. */
  const ParquetMagic: seq<bv8> := [0x50, 0x41, 0x52, 0x31]

  /** How much of a rejected body is shown to the operator. */
  const ExcerptLength: nat := 500

  /** The trip columns requested from the Parquet reader (app.py `NEEDED_COLS`). */
  const NeededColumns: seq<string> := [
    "tpep_pickup_datetime", "pickup_hour", "pickup_day_of_week",
    "trip_duration_minutes", "payment_type", "fare_amount", "total_amount",
    "trip_distance", "PULocationID", "DOLocationID"]

  /**
    The outcome of fetching and reading one file: a parsed value, a body
    that is not Parquet (the run stops and shows the excerpt), or a fetch
    or read that raised (an HTTP status error, a timeout, a decoding error).
   */
  datatype Fetched<T> = Parsed(value: T) | NotParquet(excerpt: seq<bv8>) | FetchFailed

  /** `bytes.startswith(b"PAR1")`. */
  predicate StartsWithMagic(body: seq<bv8>): (b: bool)
    ensures b <==> |body| >= 4 && body[0] == 0x50 && body[1] == 0x41 && body[2] == 0x52 && body[3] == 0x31
  {
    |body| >= |ParquetMagic| && body[..|ParquetMagic|] == ParquetMagic
  }

  /**
    The magic-byte guard followed by the reader. The reader is a parameter:
    the model says only when it is called and with what.
   */
  function Sniff<T>(body: seq<bv8>, read: seq<bv8> -> T): (r: Fetched<T>)
    ensures r.Parsed? <==>
      |body| >= 4 && body[0] == 0x50 && body[1] == 0x41 && body[2] == 0x52 && body[3] == 0x31
    ensures r.Parsed? ==> r.value == read(body)
    ensures r.NotParquet? ==> r.excerpt <= body && |r.excerpt| == if |body| < ExcerptLength then |body| else ExcerptLength
    ensures !r.FetchFailed?
  {
    if StartsWithMagic(body) then Parsed(read(body))
    else NotParquet(if |body| < ExcerptLength then body else body[..ExcerptLength])
  }

  /** A rejected body never reaches the reader: the outcome does not depend on it. */
  lemma RejectedBodyIsNotRead<T>(body: seq<bv8>, read1: seq<bv8> -> T, read2: seq<bv8> -> T)
    requires !StartsWithMagic(body)
    ensures Sniff(body, read1).NotParquet?
    ensures Sniff(body, read1) == Sniff(body, read2)
  {
  }

  /** Any body that opens with the magic is read, whatever follows it. */
  lemma MagicPrefixIsRead<T>(rest: seq<bv8>, read: seq<bv8> -> T)
    ensures Sniff(ParquetMagic + rest, read) == Parsed(read(ParquetMagic + rest))
  {
    assert (ParquetMagic + rest)[..|ParquetMagic|] == ParquetMagic;
  }

  /**
    `load_cleaned_trips`: the trip table, read with only `NeededColumns`, so
    it never carries zone-name columns.
   */
  function LoadCleanedTrips(body: seq<bv8>, read: (seq<bv8>, seq<string>) -> seq<Trip>): (r: Fetched<Table>)
    ensures r.Parsed? <==> StartsWithMagic(body)
    ensures r.Parsed? ==> r.value.rows == read(body, NeededColumns)
    ensures r.Parsed? ==> !r.value.hasPickupNames && !r.value.hasDropoffNames
    ensures r.NotParquet? <==> !StartsWithMagic(body)
  {
    Sniff(body, b => Table(read(b, NeededColumns), false, false))
  }

  /** `load_zones`: the whole zone table. */
  function LoadZones(body: seq<bv8>, read: seq<bv8> -> seq<Zone>): (r: Fetched<seq<Zone>>)
    ensures r.Parsed? <==> StartsWithMagic(body)
    ensures r.Parsed? ==> r.value == read(body)
    ensures r.NotParquet? <==> !StartsWithMagic(body)
  {
    Sniff(body, read)
  }
}
