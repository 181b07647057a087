/** One measured benchmark cell and the two figures derived from it. The
    derived figures are computed, never stored, so they cannot drift from the
    measurement. Arithmetic is exact (`real`); the source uses floating point. */
module Results {

  const NsPerSecond: real := 1000000000.0
  const BytesPerMiB: real := 1048576.0

  datatype Result = Result(name: string, original: nat, compressed: nat, timeNs: nat)
  {
    /** `compressed / original * 100`; a zero original size would divide by
        zero in the source too. */
    function Ratio(): (r: real)
      requires original > 0
      ensures 0.0 <= r
      ensures r < 100.0 <==> compressed < original
      ensures r == 100.0 <==> compressed == original
      ensures r * original as real == 100.0 * compressed as real
    {
      var o, c := original as real, compressed as real;
      QuotientOrder(c, o);
      c / o * 100.0
    }

    /** Throughput in MiB per second, with zero elapsed time reported as zero
        throughput instead of a division by zero. */
    function SpeedMbps(): (r: real)
      ensures 0.0 <= r
      ensures timeNs == 0 ==> r == 0.0
      ensures timeNs > 0 ==> r * (timeNs as real / NsPerSecond) == original as real / BytesPerMiB
      ensures r == 0.0 <==> timeNs == 0 || original == 0
    {
      var seconds := timeNs as real / NsPerSecond;
      if seconds == 0.0 then 0.0 else (original as real / BytesPerMiB) / seconds
    }
  }

  /** Dividing by a positive amount keeps the order relative to one. */
  lemma QuotientOrder(c: real, o: real)
    requires o > 0.0 && c >= 0.0
    ensures c / o < 1.0 <==> c < o
    ensures c / o == 1.0 <==> c == o
    ensures 0.0 <= c / o
    ensures c / o * o == c
  {
  }
}
