/** The part size for uploads to S3 (network/s3_upload.go): a file may have at most 10000
    parts, of at least 5 MB each but the last. */
module PartSizes {

  const S3_MIN_CHUNK_SIZE := 5 * 1024 * 1024
  const BIG_CHUNK_SIZE := 50 * 1024 * 1024
  const MAX_INT64 := 0x7fff_ffff_ffff_ffff

  /** The quotient of int64 division, which rounds toward zero. */
  function Quotient(a: int, b: int): int
    requires b > 0
  {
    if a >= 0 then a / b else -((-a) / b)
  }

  function Int64(a: int): int
    requires 0 <= a <= 2 * MAX_INT64
  {
    if a > MAX_INT64 then a - 2 * (MAX_INT64 + 1) else a
  }

  function ChunkSize(size: nat): int
    requires size <= MAX_INT64
  {
    var chunk := Quotient(Int64(size + 1000000), 10000);
    if chunk < BIG_CHUNK_SIZE then BIG_CHUNK_SIZE else chunk
  }

  predicate FitsIn(size: nat, chunk: int, parts: nat) {
    size <= chunk * parts
  }

  /** The parts suffice for every file size up to where the sum overflows, and for no file
      beyond. */
  lemma PartsSuffice(size: nat)
    requires size <= MAX_INT64
    ensures ChunkSize(size) >= S3_MIN_CHUNK_SIZE == 5242880
    ensures FitsIn(size, ChunkSize(size), 10000) <==> size <= MAX_INT64 - 1000000
  {
    if size <= MAX_INT64 - 1000000 {
      var q := (size + 1000000) / 10000;
      assert size + 1000000 < 10000 * q + 10000;
      assert ChunkSize(size) >= q;
    }
  }

  /** Parts are of 50 MB for every file that needs no larger ones, and larger ones are used
      just beyond. */
  lemma PartsAreBig(size: nat)
    requires size <= MAX_INT64 - 1000000
    ensures ChunkSize(size) == 52428800 <==> size + 1000000 < 52428801 * 10000
    ensures ChunkSize(size) >= 52428800
  {
    var q := (size + 1000000) / 10000;
    assert 10000 * q <= size + 1000000 < 10000 * q + 10000;
  }
}
