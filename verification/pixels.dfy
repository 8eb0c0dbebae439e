/** Pixel extraction: the decoded raw buffer is read three bytes at a time,
    each group becoming one (r, g, b) sample, in scan order. The image
    codec that produces the buffer is outside the model. */
module PixelExtraction {
  import opened Wrappers

  /** One sample. A component is `None` when it was read past the end of
      the buffer, where the source reads `undefined`. */
  datatype Sample = Sample(r: Option<int>, g: Option<int>, b: Option<int>)

  /** Reading `data[i]`: `undefined` outside the buffer. */
  function ByteAt(data: seq<int>, i: int): (v: Option<int>)
    ensures v.Some? <==> 0 <= i < |data|
    ensures v.Some? ==> v.value == data[i]
  {
    if 0 <= i < |data| then Some(data[i]) else None
  }

  /** The sample the loop builds at offset `3 * k`. */
  function SampleAt(data: seq<int>, k: nat): Sample
  {
    Sample(ByteAt(data, 3 * k), ByteAt(data, 3 * k + 1), ByteAt(data, 3 * k + 2))
  }

  /** The components of the samples, laid back out one after the other. */
  function Flatten(pixels: seq<Sample>): seq<Option<int>>
  {
    if pixels == [] then []
    else Flatten(pixels[..|pixels| - 1])
         + [pixels[|pixels| - 1].r, pixels[|pixels| - 1].g, pixels[|pixels| - 1].b]
  }

  /** Every entry of the buffer, present. */
  function Present(data: seq<int>): (s: seq<Option<int>>)
    ensures |s| == |data| && forall i :: 0 <= i < |data| ==> s[i] == Some(data[i])
  {
    if data == [] then [] else Present(data[..|data| - 1]) + [Some(data[|data| - 1])]
  }

  /** The loop of `extractPixelArray`: there are ceil(|data| / 3) samples,
      and sample k is `[data[3k], data[3k+1], data[3k+2]]`. */
  method ExtractPixelArray(data: seq<int>) returns (pixels: seq<Sample>)
    ensures |pixels| == (|data| + 2) / 3
    ensures forall k :: 0 <= k < |pixels| ==> pixels[k] == SampleAt(data, k)
  {
    pixels := [];
    var i := 0;
    while i < |data|
      invariant i == 3 * |pixels| && i <= |data| + 2
      invariant forall k :: 0 <= k < |pixels| ==> pixels[k] == SampleAt(data, k)
      decreases |data| - i
    {
      var r, g, b := ByteAt(data, i), ByteAt(data, i + 1), ByteAt(data, i + 2);
      pixels := pixels + [Sample(r, g, b)];
      i := i + 3;
    }
  }

  /** Flattening the first `m` samples of a buffer gives its first `3 * m`
      entries, `undefined` past the end. */
  lemma {:induction false} FlattenPrefix(data: seq<int>, pixels: seq<Sample>)
    requires forall k :: 0 <= k < |pixels| ==> pixels[k] == SampleAt(data, k)
    ensures Flatten(pixels) == seq(3 * |pixels|, i => ByteAt(data, i))
  {
    if pixels != [] {
      var m := |pixels| - 1;
      FlattenPrefix(data, pixels[..m]);
      assert Flatten(pixels) == Flatten(pixels[..m]) + [ByteAt(data, 3 * m), ByteAt(data, 3 * m + 1), ByteAt(data, 3 * m + 2)];
    }
  }

  /** The extracted samples lay back out to the buffer, followed by
      `undefined` reads when the length is not a multiple of three; for a
      length that is a multiple of three there are `|data| / 3` samples,
      all defined, which lay back out to exactly the buffer. */
  lemma SamplesRoundTrip(data: seq<int>, pixels: seq<Sample>)
    requires |pixels| == (|data| + 2) / 3
    requires forall k :: 0 <= k < |pixels| ==> pixels[k] == SampleAt(data, k)
    ensures Flatten(pixels) == seq(3 * |pixels|, i => ByteAt(data, i))
    ensures |data| % 3 == 0 ==>
              |pixels| == |data| / 3 && Flatten(pixels) == Present(data) &&
              forall k :: 0 <= k < |pixels| ==>
                pixels[k] == Sample(Some(data[3 * k]), Some(data[3 * k + 1]), Some(data[3 * k + 2]))
  {
    FlattenPrefix(data, pixels);
  }
}
