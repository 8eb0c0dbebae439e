# Dominant colour pipeline: a Dafny model

This project models the algorithmic core of a small service. The service
looks up a photograph for a text query and reports its dominant colour as a
`#rrggbb` string. Four pieces hold the logic. They are modelled with pure
functions and two imperative methods, `Search` and `ExtractPixelArray`:

- **`Color` value object** (`Colors` module, `color.dfy`). The constructor
  range-checks each channel against [0, 255] *before* rounding, fails with
  a `RangeError` and otherwise stores `Math.round` of each input. Also
  modelled: `rgb()`, and `hex()` built from `toString(16)` and
  `padStart(2, '0')`. A decoder `ParseHex` is proved to invert `hex()`
  exactly on the lowercase `#rrggbb` strings.
- **Search fallback `imageSearch`** (`ImageSearch` module,
  `image_search.dfy`). A method draws a start offset `floor(u * n)` from a
  random number `u` in [0, 1). Attempt `k` then calls backend
  `(offset + k) mod n`. The first answer wins. After the n-th failure the
  method reports "All functions failed". With no backends it returns an
  empty list. The method also returns the list of backends it called, so
  its contract can say which backends were called and in what order.
- **Pixel grouping in `extractPixelArray`** (`PixelExtraction` module,
  `pixels.dfy`). The decoded buffer is read three entries at a time. A read
  past the end is JavaScript's `undefined`, modelled as `None`.
- **Cluster selection in `calculateDominantColor`** (`DominantColor`
  module, `dominant_color.dfy`). The model takes the k-means callback's
  `err` and `result` as input. Sorting by member count is a stable
  insertion sort. It is proved sorted, proved a permutation, and proved to
  put the earliest largest cluster first. That cluster is also computed
  directly by the reference function `LargestIndex`.

`wrappers.dfy` holds the `Option` and `Result` types. They stand in for
the source's thrown errors and `undefined` reads.

Behaviour of the code worth noting:
- When k-means reports an error, the stage rejects with that error. It
  does not replace it with a generic "clustering failed" error.
- The chosen cluster is the head of the stable sort. Its size is never
  checked, so an all-empty reply still yields a cluster.
- The production backend list has one entry. The model works for any
  number of backends.

## Model

| member | source | states |
|---|---|---|
| Colors.Round | src/Color.ts:19-21 | `Math.round`: the result `n` satisfies `n - 0.5 <= x < n + 0.5` (nearest integer, halves up) |
| Colors.RoundUnique | src/Color.ts:19-21 | only one integer satisfies that bound, so the rounding is unique |
| Colors.NewColor | src/Color.ts:13-22 | fails with `RangeError("RGB values must be in the range 0-255")` exactly when some input is < 0 or > 255; on success every channel is an integer in [0, 255] and within half a unit of its input |
| Colors.BoundsAccepted | src/Color.ts:16 | the inclusive bounds 0 and 255 are accepted on every channel and stored unchanged |
| Colors.CheckPrecedesRounding | src/Color.ts:16-21 | inputs such as 255.4 and -0.3 are rejected even though they would round into range |
| Colors.RgbOfNewColor | src/Color.ts:28-30 | `rgb()` of a constructed colour is `[round(r), round(g), round(b)]` in that order, each in [0, 255] |
| Colors.RgbRoundTrip | src/Color.ts:13-30 | building a colour from its own `rgb()` gives the same colour back |
| Colors.Color.Rgb | src/Color.ts:28-30 | `rgb()` is the three stored channels in the order r, g, b; for a constructed colour each is in [0, 255] |
| Colors.ToBase16 | src/Color.ts:37-39 | `toString(16)` of a non-negative integer is lowercase hex digits with no leading zero, denoting the number; one digit below 16, at most two below 256 |
| Colors.LeadingZero | src/Color.ts:37-39 | a zero digit in front (what `padStart` adds) leaves the denoted number unchanged |
| Colors.PadStart | src/Color.ts:37-39 | `padStart(width, fill)` has `width` characters, or the length of `s` when `s` is already that long (its contents are stated by `PadStartShape`) |
| Colors.PadStartShape | src/Color.ts:37-39 | the padded string is fill characters followed by the original string, so a string already `width` long is returned unchanged |
| Colors.ByteHex | src/Color.ts:37-39 | each padded channel is exactly two lowercase hex digits denoting the channel |
| Colors.ByteHexOfValue | src/Color.ts:37-39 | every two-digit lowercase group is the padded rendering of the number it denotes |
| Colors.Color.Hex | src/Color.ts:36-41 | `hex()` is 7 characters: `#` and then three two-digit lowercase groups, which decode to r, g and b in that order |
| Colors.HexRoundTrip | src/Color.ts:36-41 | decoding `hex()` gives back the colour |
| Colors.ParseHexRoundTrip | src/Color.ts:36-41 | every lowercase `#rrggbb` string is the `hex()` of the colour it decodes to |
| Colors.HexInjective | src/Color.ts:36-41 | different colours render to different strings |
| Colors.HexExamples | src/Color.ts:36-41 | white renders as `#ffffff`, black as `#000000`, and (16, 32, 48) as `#102030` |
| Colors.HexOfGroups | src/Color.ts:36-41 | a colour whose channels are the values of three two-digit groups renders as `#` followed by exactly those groups |
| ImageSearch.StartOffset | src/ImageProcessor.ts:63-65 | `floor(u * n)` for `u` in [0, 1) lies in [0, n) when n >= 1, and is 0 when n = 0 |
| ImageSearch.Slot | src/ImageProcessor.ts:71 | the index `(offset + retryCount) % n` is below `n` and is the remainder of dividing `offset + retryCount` by `n`; the operands are non-negative and `n > 0`, so JavaScript's truncating `%` gives the same value |
| ImageSearch.ModOfQuotientForm | src/ImageProcessor.ts:71 | the remainder is unique: `q * n + r` with `0 <= r < n` leaves `r`; on the non-negative `offset + retryCount` this is also what JavaScript's truncating `%` computes |
| ImageSearch.SlotsDistinct | src/ImageProcessor.ts:70-71 | within one cycle, different attempts call different backends |
| ImageSearch.SlotsCover | src/ImageProcessor.ts:70-71 | within one cycle, every backend is called by some attempt |
| ImageSearch.Search | src/ImageProcessor.ts:56-84 | attempt k calls backend `(offset + k) mod n`, always a valid index; no backend is called twice; every attempt before the last one failed; a success returns that backend's results and stops; "All functions failed" is reported exactly when every backend fails, after exactly n attempts that cover all backends; with no backends nothing is called and the result is empty |
| PixelExtraction.ExtractPixelArray | src/ImageProcessor.ts:116-123 | there are ceil(len/3) samples and sample k is `[data[3k], data[3k+1], data[3k+2]]`, in scan order, with `undefined` for reads past the end |
| PixelExtraction.ByteAt | src/ImageProcessor.ts:118-120 | reading `data[i]` gives the entry when `i` is inside the buffer and `undefined` otherwise |
| PixelExtraction.FlattenPrefix | src/ImageProcessor.ts:117-121 | laying out the first m samples gives back the first 3m entries of the buffer, in order |
| PixelExtraction.SamplesRoundTrip | src/ImageProcessor.ts:116-123 | the extracted samples lay back out to the buffer followed by `undefined` reads; when len is a multiple of 3 there are len/3 samples, all defined, and they lay back out to exactly the buffer |
| DominantColor.InsertBySize | src/ImageProcessor.ts:143 | one insertion step of the stable sort; the result is a permutation of the list plus the new cluster |
| DominantColor.InsertKeepsSorted | src/ImageProcessor.ts:143 | inserting into a list sorted by decreasing size keeps it sorted |
| DominantColor.SortBySizeDesc | src/ImageProcessor.ts:143 | the sort by decreasing member count is a permutation of the clusters and is sorted |
| DominantColor.LargestIndex | src/ImageProcessor.ts:143-144 | reference selection: the cluster has the most members, and every earlier cluster has strictly fewer |
| DominantColor.EarliestLargestUnique | src/ImageProcessor.ts:143-144 | that selection is unique |
| DominantColor.SortHeadIsEarliestLargest | src/ImageProcessor.ts:143-144 | the head of the stable sort is the earliest largest cluster, so ties go to the cluster k-means listed first |
| DominantColor.ColorOfCentroid | src/ImageProcessor.ts:145 | `new Color(centroid[0], centroid[1], centroid[2])`: the stage rejects with the colour's range error exactly when some coordinate is outside [0, 255]; otherwise it resolves to a valid colour whose `rgb()` is the rounded coordinates |
| DominantColor.CalculateDominantColor | src/ImageProcessor.ts:139-146 | a reported error rejects with that error; a missing result rejects with "Clustering failed."; otherwise the outcome is the `Color` of the earliest largest cluster's centroid, with the channels rounded; a centroid outside [0, 255] rejects with the colour's range error |

## Left out

- `Color.lab()` (src/Color.ts:47-66) is left out. It is IEEE floating-point arithmetic (a 2.4 power, a cube root and matrix constants), which `real` does not model.
- Colors.NewColor: inputs are Dafny `real`s, so NaN and the infinities are not modelled. A NaN channel would pass the source's range check, because every comparison with NaN is false.
- The `console.log` in the constructor and all `winston` logging are left out. They have no effect on results.
- The k-means algorithm (`node-kmeans`) is left out. Its reply is an input, so no property about clustering quality is stated. That includes "a 95% red image yields red".
- The `sharp` image decoding is left out. The model starts from the decoded buffer, and its entries are not constrained to bytes. A decoder error, and images whose raw output carries an alpha channel, are not modelled.
- The `axios` download `fetchImage` (src/ImageProcessor.ts:96-99) is left out. So is `getDominantColorFromImageURL` (src/ImageProcessor.ts:186-191), which only chains fetch, decode, extraction and selection and passes their errors through.
- The search backends `src/bingImageSearch.ts` and `src/googleImageSearch.ts` are HTTP clients. Each backend is modelled only by its outcome for the current call: hits, or a thrown error. The search options (query, size, count) pass through untouched and are not modelled.
- `Math.random` is an input. The draw `u` in [0, 1) is a parameter, and `StartOffset` turns it into the start offset.
- DominantColor.CalculateDominantColor assumes that k-means calls its callback synchronously. Any error thrown in the callback then becomes the promise's rejection. For a `RangeError` from building the `Color`, that rejection is `ColorRejected`.
- DominantColor.CalculateDominantColor: the `Clusters` subset type excludes an empty cluster array on purpose. For that input the source reads `.centroid` of `undefined`, so under the same assumption the stage would reject with a TypeError. The model does not state that rejection.
- `async`/`Promise` sequencing is left out. Each stage is a single call that returns its outcome.
- The HTTP route in `src/index.ts`, the deployment stacks in `lib/` and `bin/cheff-colors.ts`, and the commented-out saliency variant (src/ImageProcessor.ts:151-173) are outside the core and are not modelled.
