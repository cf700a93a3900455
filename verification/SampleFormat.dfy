/** The sample formats, their sizes and the conversion to and from libav's enumeration. */
module SampleFormat {

  datatype SampleFormat =
    | U8Interleaved | S16Interleaved | S32Interleaved | FloatInterleaved | DoubleInterleaved | S64Interleaved
    | U8Planar | S16Planar | S32Planar | FloatPlanar | DoublePlanar | S64Planar

  /** libav's formats; `Other` stands for every format this program does not know. */
  datatype LibavFormat =
    | U8 | S16 | S32 | Flt | Dbl | S64 | U8P | S16P | S32P | FltP | DblP | S64P
    | Other(code: int)

  datatype Result<T> = Ok(value: T) | Unsupported

  predicate IsInterleaved(f: SampleFormat) {
    || f.U8Interleaved? || f.S16Interleaved? || f.S32Interleaved?
    || f.FloatInterleaved? || f.DoubleInterleaved? || f.S64Interleaved?
  }

  function SampleSize(f: SampleFormat): (n: nat)
    ensures n in {1, 2, 4, 8}
  {
    match f
    case U8Interleaved => 1
    case U8Planar => 1
    case S16Interleaved => 2
    case S16Planar => 2
    case S32Interleaved => 4
    case S32Planar => 4
    case FloatInterleaved => 4
    case FloatPlanar => 4
    case _ => 8
  }

  function ToLibav(f: SampleFormat): LibavFormat {
    match f
    case U8Interleaved => U8
    case S16Interleaved => S16
    case S32Interleaved => S32
    case FloatInterleaved => Flt
    case DoubleInterleaved => Dbl
    case S64Interleaved => S64
    case U8Planar => U8P
    case S16Planar => S16P
    case S32Planar => S32P
    case FloatPlanar => FltP
    case DoublePlanar => DblP
    case S64Planar => S64P
  }

  function FromLibav(a: LibavFormat): Result<SampleFormat> {
    match a
    case U8 => Ok(U8Interleaved)
    case S16 => Ok(S16Interleaved)
    case S32 => Ok(S32Interleaved)
    case Flt => Ok(FloatInterleaved)
    case Dbl => Ok(DoubleInterleaved)
    case S64 => Ok(S64Interleaved)
    case U8P => Ok(U8Planar)
    case S16P => Ok(S16Planar)
    case S32P => Ok(S32Planar)
    case FltP => Ok(FloatPlanar)
    case DblP => Ok(DoublePlanar)
    case S64P => Ok(S64Planar)
    case Other(_) => Unsupported
  }

  /** The format the chunk writer reads back from the codec is the one the codec was opened with. */
  lemma LibavRoundTrip(f: SampleFormat, a: LibavFormat)
    ensures FromLibav(ToLibav(f)) == Ok(f)
    ensures FromLibav(a) == Ok(f) <==> a == ToLibav(f)
  {
    match f
    case U8Interleaved => case S16Interleaved => case S32Interleaved =>
    case FloatInterleaved => case DoubleInterleaved => case S64Interleaved =>
    case U8Planar => case S16Planar => case S32Planar => case FloatPlanar => case DoublePlanar => case S64Planar =>
  }

  /** Channel buffers per chunk: the samples of both channels share one buffer, or have one each. */
  function BufferCount(f: SampleFormat): nat {
    if IsInterleaved(f) then 1 else 2
  }

  /** Bytes one sample (of both channels, if interleaved) takes in a channel buffer. */
  function Width(f: SampleFormat): (w: nat)
    ensures w > 0
  {
    if IsInterleaved(f) then 2 * SampleSize(f) else SampleSize(f)
  }

  /** How `on_process` counts the samples in `bytes` bytes of a channel buffer. */
  function SampleCount(f: SampleFormat, bytes: nat): nat {
    if IsInterleaved(f) then (bytes / 2) / SampleSize(f) else bytes / SampleSize(f)
  }

  lemma HalvingTwice(bytes: nat, size: nat)
    requires size in {1, 2, 4, 8}
    ensures (bytes / 2) / size == bytes / (2 * size)
  {
  }

  /** The two truncating divisions count whole samples: never more than the bytes hold. */
  lemma SampleCountIsWhole(f: SampleFormat, bytes: nat)
    ensures SampleCount(f, bytes) == bytes / Width(f)
    ensures SampleCount(f, bytes) * Width(f) <= bytes < (SampleCount(f, bytes) + 1) * Width(f)
    ensures bytes % Width(f) == 0 ==> SampleCount(f, bytes) * Width(f) == bytes
  {
    HalvingTwice(bytes, SampleSize(f));
    assert Width(f) in {1, 2, 4, 8, 16};
  }

  // ----- Against libav's own formats

  /** Bytes of one element, as libav defines its formats. */
  function ElementBytes(a: LibavFormat): nat {
    match a
    case U8 => 1
    case U8P => 1
    case S16 => 2
    case S16P => 2
    case S32 => 4
    case S32P => 4
    case Flt => 4
    case FltP => 4
    case Dbl => 8
    case DblP => 8
    case S64 => 8
    case S64P => 8
    case Other(_) => 0
  }

  /** Whether each channel has a plane of its own. */
  predicate Planar(a: LibavFormat) {
    a in {U8P, S16P, S32P, FltP, DblP, S64P}
  }

  predicate OfFloats(a: LibavFormat) {
    a in {Flt, Dbl, FltP, DblP}
  }

  /** The planar format with the same elements. */
  function PlanarForm(f: SampleFormat): SampleFormat {
    match f
    case U8Interleaved => U8Planar
    case S16Interleaved => S16Planar
    case S32Interleaved => S32Planar
    case FloatInterleaved => FloatPlanar
    case DoubleInterleaved => DoublePlanar
    case S64Interleaved => S64Planar
    case _ => f
  }

  /** Sizes, planarity and kind of the elements are those of the libav format. */
  lemma FormatsAgree(f: SampleFormat)
    ensures SampleSize(f) == ElementBytes(ToLibav(f))
    ensures IsInterleaved(f) <==> !Planar(ToLibav(f))
    ensures f.FloatInterleaved? || f.FloatPlanar? || f.DoubleInterleaved? || f.DoublePlanar? <==> OfFloats(ToLibav(f))
    ensures SampleSize(PlanarForm(f)) == SampleSize(f) && !IsInterleaved(PlanarForm(f))
  {
    match f
    case U8Interleaved => case S16Interleaved => case S32Interleaved =>
    case FloatInterleaved => case DoubleInterleaved => case S64Interleaved =>
    case U8Planar => case S16Planar => case S32Planar => case FloatPlanar => case DoublePlanar => case S64Planar =>
  }

  /** Stereo: one buffer with both channels' elements in turn, or two buffers with one channel each; and
      so many bytes of a buffer are so many samples. */
  lemma StereoLayout(f: SampleFormat, samples: nat)
    ensures BufferCount(f) == if Planar(ToLibav(f)) then 2 else 1
    ensures Width(f) == ElementBytes(ToLibav(f)) * if Planar(ToLibav(f)) then 1 else 2
    ensures SampleCount(f, samples * Width(f)) == samples
  {
    FormatsAgree(f);
    var bytes := samples * Width(f);
    SampleCountIsWhole(f, bytes);
    assert Width(f) in {1, 2, 4, 8, 16};
    assert bytes / Width(f) == samples;
  }
}
