/** Palette extraction of src/utils/colorExtraction.ts: sampling and
    quantising the pixels of an RGBA buffer, counting colours, keeping the
    five most frequent, and picking primary, accent and background colours
    serialised as `#rrggbb`. Decoding the image into the buffer and the
    luminance-based choice of the secondary colour are not part of this
    model; the secondary colour is an input. */
module ColorExtraction {
  import opened Common
  import opened Sorting

  /** An element of a `Uint8ClampedArray`. */
  type byte = x: int | 0 <= x < 256

  /** A colour. Channels are whole numbers; every colour the helpers build
      from a buffer has channels in 0..255. */
  datatype RGB = RGB(r: nat, g: nat, b: nat)

  predicate InRange(c: RGB) {
    c.r < 256 && c.g < 256 && c.b < 256
  }

  // ---------------------------------------------------------------------
  // Sampling and quantisation

  /** Bytes between two sampled pixels: every 4th pixel of 4 bytes. */
  const STRIDE: nat := 16
  /** Pixels with a smaller alpha are skipped as transparent. */
  const MIN_ALPHA: nat := 128
  /** The number of dominant colours kept. */
  const MAX_COLORS: nat := 5

  /** `Math.floor(v / 32) * 32`: the channel rounded down to one of the
      eight levels 0, 32, ..., 224. */
  function Quantize(v: byte): (q: byte)
    ensures q % 32 == 0 && q <= 224
    ensures q <= v < q + 32
  {
    (v / 32) * 32
  }

  /** Quantising twice is quantising once. */
  lemma QuantizeIdempotent(v: byte)
    ensures Quantize(Quantize(v)) == Quantize(v)
  {
    var q := Quantize(v);
    assert q == (q / 32) * 32;
  }

  predicate Quantized(c: RGB) {
    && c.r % 32 == 0 && c.r <= 224
    && c.g % 32 == 0 && c.g <= 224
    && c.b % 32 == 0 && c.b <= 224
  }

  /** The number of offsets `0, 16, 32, ...` below `len`. */
  function NumSamples(len: nat): nat {
    (len + STRIDE - 1) / STRIDE
  }

  /** In a buffer of whole RGBA pixels every sampled offset starts a whole
      pixel. */
  lemma SampleInBounds(len: nat, k: nat)
    requires len % 4 == 0 && k < NumSamples(len)
    ensures 16 * k + 3 < len
  {
    var q := (len + 15) / 16;
    assert 16 * q <= len + 15;
    assert 16 * k + 16 <= 16 * q;
    var m := len / 4;
    assert len == 4 * m;
    assert 4 * k < m;
  }

  /** One more sample adds the colour of that pixel when it is opaque. */
  lemma SampleStep(data: seq<byte>, n: nat)
    requires |data| % 4 == 0 && n < NumSamples(|data|)
    ensures 16 * n + 3 < |data|
    ensures Samples(data, n + 1) == Samples(data, n) + match SampleAt(data, 16 * n)
                                                    case None => []
                                                    case Some(c) => [c]
  {
    SampleInBounds(|data|, n);
  }

  lemma SamplesDone(len: nat, n: nat)
    requires len <= 16 * n < len + 16
    ensures n == NumSamples(len)
  {
  }

  /** The quantised colour of the pixel at offset `i`, or nothing when it is
      transparent. */
  function SampleAt(data: seq<byte>, i: nat): (r: Option<RGB>)
    requires i + 3 < |data|
    ensures r.None? <==> data[i + 3] < MIN_ALPHA
    ensures r.Some? ==>
      && Quantized(r.value)
      && r.value.r <= data[i] < r.value.r + 32
      && r.value.g <= data[i + 1] < r.value.g + 32
      && r.value.b <= data[i + 2] < r.value.b + 32
  {
    if data[i + 3] < MIN_ALPHA then None
    else Some(RGB(Quantize(data[i]), Quantize(data[i + 1]), Quantize(data[i + 2])))
  }

  /** The colours of the opaque pixels among the first `n` sampled ones,
      in buffer order. */
  function Samples(data: seq<byte>, n: nat): (r: seq<RGB>)
    requires |data| % 4 == 0 && n <= NumSamples(|data|)
    ensures |r| <= n
    ensures forall k :: 0 <= k < |r| ==> Quantized(r[k])
  {
    if n == 0 then []
    else
      SampleInBounds(|data|, n - 1);
      match SampleAt(data, 16 * (n - 1))
      case None => Samples(data, n - 1)
      case Some(c) => Samples(data, n - 1) + [c]
  }

  /** How often colour `c` occurs among all sampled pixels. */
  function Frequency(data: seq<byte>, c: RGB): nat
    requires |data| % 4 == 0
  {
    multiset(Samples(data, NumSamples(|data|)))[c]
  }

  // ---------------------------------------------------------------------
  // Counting

  /** An entry of `colorMap`: a colour and how often it was seen. */
  datatype ColorCount = ColorCount(color: RGB, count: nat)

  function ColorOf(e: ColorCount): RGB {
    e.color
  }

  function ColorIs(c: RGB): ColorCount -> bool {
    (e: ColorCount) => e.color == c
  }

  function Colors(h: seq<ColorCount>): (r: seq<RGB>)
    ensures |r| == |h| && forall k :: 0 <= k < |h| ==> r[k] == h[k].color
  {
    seq(|h|, k requires 0 <= k < |h| => h[k].color)
  }

  /** One more pixel of colour `c`: its entry's count goes up, or, for a
      colour not seen before, an entry with count 1 goes at the end (a
      `Map` keeps insertion order). */
  function Bump(h: seq<ColorCount>, c: RGB): seq<ColorCount> {
    match FirstWhere(h, ColorIs(c))
    case Some(k) => h[k := h[k].(count := h[k].count + 1)]
    case None => h + [ColorCount(c, 1)]
  }

  /** The `colorMap` after counting the colours of `s` in order. */
  function Tally(s: seq<RGB>): seq<ColorCount> {
    if s == [] then [] else Bump(Tally(s[..|s| - 1]), s[|s| - 1])
  }

  /** `h` counts the colours of `m`: one entry per colour, each with the
      number of times its colour occurs, and an entry for every colour. */
  ghost predicate CountsOf(h: seq<ColorCount>, m: multiset<RGB>) {
    && DistinctBy(h, ColorOf)
    && (forall k :: 0 <= k < |h| ==> h[k].count == m[h[k].color])
    && (forall c :: c in m <==> c in Colors(h))
  }

  lemma BumpCounts(h: seq<ColorCount>, m: multiset<RGB>, c: RGB)
    requires CountsOf(h, m)
    ensures CountsOf(Bump(h, c), m + multiset{c})
  {
    match FirstWhere(h, ColorIs(c)) {
      case Some(k) =>
        assert h[k].color == c;
        BumpSeen(h, m, c, k);
      case None =>
        assert forall j :: 0 <= j < |h| ==> h[j].color != c by {
          forall j | 0 <= j < |h| ensures h[j].color != c {
            assert !ColorIs(c)(h[j]);
          }
        }
        BumpUnseen(h, m, c);
    }
  }

  /** A colour already counted: its entry goes up by one. */
  lemma BumpSeen(h: seq<ColorCount>, m: multiset<RGB>, c: RGB, k: nat)
    requires CountsOf(h, m) && k < |h| && h[k].color == c
    ensures CountsOf(h[k := h[k].(count := h[k].count + 1)], m + multiset{c})
  {
    var m' := m + multiset{c};
    var h' := h[k := h[k].(count := h[k].count + 1)];
    assert Colors(h') == Colors(h);
    forall j | 0 <= j < |h'| ensures h'[j].count == m'[h'[j].color] {
      if j != k {
        assert ColorOf(h[j]) != ColorOf(h[k]);
      }
    }
    assert DistinctBy(h', ColorOf) by {
      forall i, j | 0 <= i < j < |h'| ensures ColorOf(h'[i]) != ColorOf(h'[j]) {
        assert ColorOf(h[i]) != ColorOf(h[j]);
      }
    }
  }

  /** A colour not counted yet: a new entry with count 1 at the end. */
  lemma BumpUnseen(h: seq<ColorCount>, m: multiset<RGB>, c: RGB)
    requires CountsOf(h, m) && forall j :: 0 <= j < |h| ==> h[j].color != c
    ensures CountsOf(h + [ColorCount(c, 1)], m + multiset{c})
  {
    var m' := m + multiset{c};
    var h' := h + [ColorCount(c, 1)];
    assert c !in Colors(h);
    assert Colors(h') == Colors(h) + [c];
    forall j | 0 <= j < |h'| ensures h'[j].count == m'[h'[j].color] {
      if j < |h| {
        assert h'[j] == h[j] && h[j].color != c;
      }
    }
    assert DistinctBy(h', ColorOf) by {
      forall i, j | 0 <= i < j < |h'| ensures ColorOf(h'[i]) != ColorOf(h'[j]) {
        if j < |h| {
          assert ColorOf(h[i]) != ColorOf(h[j]);
        } else {
          assert Colors(h)[i] == h[i].color;
        }
      }
    }
  }

  lemma TallySnoc(s: seq<RGB>, c: RGB)
    ensures Tally(s + [c]) == Bump(Tally(s), c)
  {
    assert (s + [c])[..|s|] == s;
  }

  /** The tally counts exactly the colours of `s`. */
  lemma {:induction false} TallyCounts(s: seq<RGB>)
    ensures CountsOf(Tally(s), multiset(s))
  {
    if s != [] {
      var init := s[..|s| - 1];
      assert s == init + [s[|s| - 1]];
      TallyCounts(init);
      BumpCounts(Tally(init), multiset(init), s[|s| - 1]);
    }
  }

  function CountKey(e: ColorCount): real {
    e.count as real
  }

  /** The colour counts of a buffer, in order of first appearance. */
  function Counted(data: seq<byte>): seq<ColorCount>
    requires |data| % 4 == 0
  {
    Tally(Samples(data, NumSamples(|data|)))
  }

  /** `extractDominantColors`'s result: the colours of the five largest
      counts, most frequent first (a stable sort keeps first appearance
      first among equal counts). */
  function DominantColors(data: seq<byte>): seq<RGB>
    requires |data| % 4 == 0
  {
    Colors(Take(SortDesc(Counted(data), CountKey), MAX_COLORS))
  }

  /** An entry of the sorted counts is a sampled colour with its count. */
  lemma SortedEntry(data: seq<byte>, e: ColorCount)
    requires |data| % 4 == 0 && e in SortDesc(Counted(data), CountKey)
    ensures e.count == Frequency(data, e.color) > 0 && Quantized(e.color)
  {
    var samples := Samples(data, NumSamples(|data|));
    TallyCounts(samples);
    SortedElements(Counted(data), CountKey, e);
    var k :| 0 <= k < |Counted(data)| && Counted(data)[k] == e;
    assert Colors(Counted(data))[k] == e.color;
    var j :| 0 <= j < |samples| && samples[j] == e.color;
  }

  /** The dominant colours are distinct, sampled and quantised, and each
      stands at the place of its count in the sorted counts. */
  lemma DominantEntries(data: seq<byte>)
    requires |data| % 4 == 0
    ensures var sorted := SortDesc(Counted(data), CountKey);
      var r := DominantColors(data);
      && |r| == Min(MAX_COLORS, |sorted|)
      && Distinct(r)
      && forall i :: 0 <= i < |r| ==>
           r[i] == sorted[i].color && Quantized(r[i]) && Frequency(data, r[i]) == sorted[i].count > 0
  {
    var sorted := SortDesc(Counted(data), CountKey);
    var r := DominantColors(data);
    TallyCounts(Samples(data, NumSamples(|data|)));
    PermutationKeepsDistinct(sorted, Counted(data), ColorOf);
    forall i | 0 <= i < |r| ensures r[i] == sorted[i].color && Quantized(r[i]) && Frequency(data, r[i]) == sorted[i].count > 0 {
      SortedEntry(data, sorted[i]);
    }
    forall i, j | 0 <= i < j < |r| ensures r[i] != r[j] {
      assert ColorOf(sorted[i]) != ColorOf(sorted[j]);
    }
  }

  /** A sampled colour missing from the dominant colours is no more frequent
      than the last of five. */
  lemma DominantTop(data: seq<byte>, c: RGB)
    requires |data| % 4 == 0 && Frequency(data, c) > 0 && c !in DominantColors(data)
    ensures |DominantColors(data)| == MAX_COLORS
    ensures Frequency(data, c) <= Frequency(data, DominantColors(data)[MAX_COLORS - 1])
  {
    var samples := Samples(data, NumSamples(|data|));
    var sorted := SortDesc(Counted(data), CountKey);
    var r := DominantColors(data);
    DominantEntries(data);
    TallyCounts(samples);
    assert c in multiset(samples);
    assert c in Colors(Counted(data));
    var k :| 0 <= k < |Counted(data)| && Colors(Counted(data))[k] == c;
    var e := Counted(data)[k];
    SortedElements(Counted(data), CountKey, e);
    var j :| 0 <= j < |sorted| && sorted[j] == e;
    SortedEntry(data, e);
    assert CountKey(sorted[MAX_COLORS - 1]) >= CountKey(sorted[j]);
  }

  /** At most five colours, each sampled, quantised and listed once, in
      non-increasing order of frequency; a sampled colour left out is no
      more frequent than the fifth. */
  lemma DominantColorsSpec(data: seq<byte>)
    requires |data| % 4 == 0
    ensures var r := DominantColors(data);
      && |r| <= MAX_COLORS
      && Distinct(r)
      && (forall i :: 0 <= i < |r| ==> Quantized(r[i]) && Frequency(data, r[i]) > 0)
      && (forall i, j :: 0 <= i < j < |r| ==> Frequency(data, r[i]) >= Frequency(data, r[j]))
      && (forall c :: Frequency(data, c) > 0 && c !in r ==>
            |r| == MAX_COLORS && Frequency(data, c) <= Frequency(data, r[MAX_COLORS - 1]))
  {
    var sorted := SortDesc(Counted(data), CountKey);
    var r := DominantColors(data);
    DominantEntries(data);
    forall i, j | 0 <= i < j < |r| ensures Frequency(data, r[i]) >= Frequency(data, r[j]) {
      assert CountKey(sorted[i]) >= CountKey(sorted[j]);
    }
    forall c | Frequency(data, c) > 0 && c !in r
      ensures |r| == MAX_COLORS && Frequency(data, c) <= Frequency(data, r[MAX_COLORS - 1])
    {
      DominantTop(data, c);
    }
  }

  /** `extractDominantColors`: one pass over the buffer filling the colour
      map, then the five most frequent colours. */
  method ExtractDominantColors(imageData: array<byte>) returns (colors: seq<RGB>)
    requires imageData.Length % 4 == 0
    ensures colors == DominantColors(imageData[..])
  {
    ghost var data := imageData[..];
    var colorMap: seq<ColorCount> := [];
    var i := 0;
    ghost var n := 0;
    while i < imageData.Length
      invariant i == 16 * n && n <= NumSamples(|data|) && i < |data| + 16
      invariant colorMap == Tally(Samples(data, n))
      decreases imageData.Length - i
    {
      SampleStep(data, n);
      var r, g, b, alpha := imageData[i], imageData[i + 1], imageData[i + 2], imageData[i + 3];
      assert r == data[i] && g == data[i + 1] && b == data[i + 2] && alpha == data[i + 3];
      if alpha >= MIN_ALPHA {
        var c := RGB(Quantize(r), Quantize(g), Quantize(b));
        assert SampleAt(data, i) == Some(c);
        TallySnoc(Samples(data, n), c);
        colorMap := Bump(colorMap, c);
      }
      i := i + STRIDE;
      n := n + 1;
    }
    SamplesDone(|data|, n);
    colors := Colors(Take(SortDesc(colorMap, CountKey), MAX_COLORS));
  }

  // ---------------------------------------------------------------------
  // Choosing the palette

  /** `getVibrance`: the spread between the largest and smallest channel. */
  function Vibrance(c: RGB): (v: int)
    ensures 0 <= v && (v == 0 <==> c.r == c.g == c.b)
    ensures InRange(c) ==> v <= 255
  {
    Max(Max(c.r, c.g), c.b) - Min(Min(c.r, c.g), c.b)
  }

  /** `getBrightness`: the weighted channel sum over 1000. */
  function Brightness(c: RGB): real {
    (299 * c.r + 587 * c.g + 114 * c.b) as real / 1000.0
  }

  /** Larger for darker colours: brightness compared in reverse. */
  function Darkness(c: RGB): int {
    -(299 * c.r + 587 * c.g + 114 * c.b)
  }

  lemma DarknessOrder(a: RGB, b: RGB)
    ensures Brightness(a) < Brightness(b) <==> Darkness(a) > Darkness(b)
  {
  }

  /** `colors.reduce((best, c) => score(c) > score(best) ? c : best)`: the
      position of the first colour of highest score. */
  function FirstBest(s: seq<RGB>, score: RGB -> int): (k: nat)
    requires |s| > 0
    ensures k < |s|
    ensures forall j :: 0 <= j < |s| ==> score(s[j]) <= score(s[k])
    ensures forall j :: 0 <= j < k ==> score(s[j]) < score(s[k])
  {
    if |s| == 1 then 0
    else
      var k := FirstBest(s[..|s| - 1], score);
      if score(s[|s| - 1]) > score(s[k]) then |s| - 1 else k
  }

  /** The primary colour: the first of the most vibrant. */
  function Primary(colors: seq<RGB>): (p: RGB)
    requires |colors| > 0
    ensures p in colors && forall c :: c in colors ==> Vibrance(c) <= Vibrance(p)
  {
    colors[FirstBest(colors, Vibrance)]
  }

  /** `findBackgroundColor`: the first of the darkest colours. */
  function Background(colors: seq<RGB>): (d: RGB)
    requires |colors| > 0
    ensures d in colors && forall c :: c in colors ==> Brightness(d) <= Brightness(c)
  {
    var k := FirstBest(colors, Darkness);
    assert forall j :: 0 <= j < |colors| ==> Darkness(colors[j]) <= Darkness(colors[k]);
    colors[k]
  }

  /** Squared `getColorDistance`: `sqrt(d) > 50` is `d > 2500`. */
  function SqDistance(a: RGB, b: RGB): nat {
    var dr, dg, db := a.r - b.r, a.g - b.g, a.b - b.b;
    dr * dr + dg * dg + db * db
  }

  lemma DistanceSymmetric(a: RGB, b: RGB)
    ensures SqDistance(a, b) == SqDistance(b, a) && SqDistance(a, a) == 0
  {
  }

  predicate Far(a: RGB, b: RGB) {
    SqDistance(a, b) > 2500
  }

  function FarFromBoth(primary: RGB, secondary: RGB): RGB -> bool {
    (c: RGB) => Far(primary, c) && Far(secondary, c)
  }

  /** The accent made up when no listed colour is far enough from both. */
  function SyntheticAccent(p: RGB): (r: RGB)
    ensures InRange(p) ==> InRange(r) && p.r <= r.r && p.g <= r.g && p.b <= r.b
  {
    RGB(Min(255, p.r + 50), Min(255, p.g + 30), Min(255, p.b + 70))
  }

  /** `findAccentColor`'s result: the first listed colour whose distance to
      both the primary and the secondary colour exceeds 50, else the
      synthetic accent. */
  function Accent(primary: RGB, secondary: RGB, colors: seq<RGB>): (r: RGB)
    ensures (exists i :: 0 <= i < |colors| && FarFromBoth(primary, secondary)(colors[i])) ==>
      exists k :: 0 <= k < |colors| && r == colors[k] && Far(primary, r) && Far(secondary, r) &&
        forall j :: 0 <= j < k ==> !(Far(primary, colors[j]) && Far(secondary, colors[j]))
    ensures (forall i :: 0 <= i < |colors| ==> !FarFromBoth(primary, secondary)(colors[i])) ==>
      r == SyntheticAccent(primary)
  {
    match FirstWhere(colors, FarFromBoth(primary, secondary))
    case Some(k) => colors[k]
    case None => SyntheticAccent(primary)
  }

  /** `findAccentColor`: the loop that returns the first qualifying colour. */
  method FindAccentColor(primary: RGB, secondary: RGB, colors: seq<RGB>) returns (accent: RGB)
    ensures accent == Accent(primary, secondary, colors)
  {
    for i := 0 to |colors|
      invariant forall j :: 0 <= j < i ==> !FarFromBoth(primary, secondary)(colors[j])
    {
      var color := colors[i];
      var primaryDistance := SqDistance(primary, color);
      var secondaryDistance := SqDistance(secondary, color);
      if primaryDistance > 2500 && secondaryDistance > 2500 {
        FirstWhereAt(colors, FarFromBoth(primary, secondary), i);
        return color;
      }
    }
    return RGB(Min(255, primary.r + 50), Min(255, primary.g + 30), Min(255, primary.b + 70));
  }

  // ---------------------------------------------------------------------
  // Hex serialisation

  function HexDigit(d: nat): (c: char)
    requires d < 16
    ensures '0' <= c <= '9' || 'a' <= c <= 'f'
  {
    if d < 10 then ('0' as int + d) as char else ('a' as int + d - 10) as char
  }

  /** `n.toString(16)`: lower-case hexadecimal digits without leading zeros. */
  function ToHexString(n: nat): (r: string)
    ensures |r| >= 1 && forall i :: 0 <= i < |r| ==> '0' <= r[i] <= '9' || 'a' <= r[i] <= 'f'
  {
    if n < 16 then [HexDigit(n)] else ToHexString(n / 16) + [HexDigit(n % 16)]
  }

  /** `toHex`: the hexadecimal digits, padded to two when there is one. */
  function ToHex(n: nat): string {
    var hex := ToHexString(n);
    if |hex| == 1 then "0" + hex else hex
  }

  /** `rgbToHex`. */
  function RgbToHex(c: RGB): string {
    "#" + ToHex(c.r) + ToHex(c.g) + ToHex(c.b)
  }

  function DigitValue(c: char): Option<nat> {
    if '0' <= c <= '9' then Some(c as int - '0' as int)
    else if 'a' <= c <= 'f' then Some(c as int - 'a' as int + 10)
    else None
  }

  /** Reads `#rrggbb` back. */
  function ParseColor(s: string): Option<RGB> {
    if |s| != 7 || s[0] != '#' then None
    else
      var ds := seq(6, i requires 0 <= i < 6 => DigitValue(s[i + 1]));
      if exists i :: 0 <= i < 6 && ds[i].None? then None
      else Some(RGB(16 * ds[0].value + ds[1].value, 16 * ds[2].value + ds[3].value, 16 * ds[4].value + ds[5].value))
  }

  /** A channel in 0..255 becomes exactly two digits, high one first. */
  lemma ToHexByte(n: nat)
    requires n < 256
    ensures ToHex(n) == [HexDigit(n / 16), HexDigit(n % 16)]
  {
    if n < 16 {
      assert ToHexString(n) == [HexDigit(n)];
      assert HexDigit(0) == '0';
    } else {
      assert ToHexString(n / 16) == [HexDigit(n / 16)];
    }
  }

  lemma DigitRoundTrip(d: nat)
    requires d < 16
    ensures DigitValue(HexDigit(d)) == Some(d)
  {
  }

  /** `#` and six hex digits read back as the channels they spell. */
  lemma ParseDigits(d0: nat, d1: nat, d2: nat, d3: nat, d4: nat, d5: nat)
    requires d0 < 16 && d1 < 16 && d2 < 16 && d3 < 16 && d4 < 16 && d5 < 16
    ensures ParseColor(['#', HexDigit(d0), HexDigit(d1), HexDigit(d2), HexDigit(d3), HexDigit(d4), HexDigit(d5)])
            == Some(RGB(16 * d0 + d1, 16 * d2 + d3, 16 * d4 + d5))
  {
    DigitRoundTrip(d0);
    DigitRoundTrip(d1);
    DigitRoundTrip(d2);
    DigitRoundTrip(d3);
    DigitRoundTrip(d4);
    DigitRoundTrip(d5);
  }

  /** A channel in 0..255 splits into a high and a low hex digit. */
  lemma ByteDigits(n: nat)
    requires n < 256
    ensures n / 16 < 16 && n % 16 < 16 && 16 * (n / 16) + n % 16 == n
  {
  }

  /** The hex string of an in-range colour, digit by digit. */
  lemma RgbToHexDigits(c: RGB)
    requires InRange(c)
    ensures RgbToHex(c) == ['#', HexDigit(c.r / 16), HexDigit(c.r % 16), HexDigit(c.g / 16), HexDigit(c.g % 16),
                            HexDigit(c.b / 16), HexDigit(c.b % 16)]
  {
    ToHexByte(c.r);
    ToHexByte(c.g);
    ToHexByte(c.b);
  }

  /** For channels in 0..255 the result is `#` and six lower-case hex
      digits, and reading it back gives the colour. */
  lemma HexRoundTrip(c: RGB)
    requires InRange(c)
    ensures |RgbToHex(c)| == 7 && RgbToHex(c)[0] == '#'
    ensures forall i :: 1 <= i < 7 ==> '0' <= RgbToHex(c)[i] <= '9' || 'a' <= RgbToHex(c)[i] <= 'f'
    ensures ParseColor(RgbToHex(c)) == Some(c)
  {
    HexShape(c);
    ByteDigits(c.r);
    ByteDigits(c.g);
    ByteDigits(c.b);
    ParseHex(c);
  }

  /** An in-range colour's hex string is `#` and six lower-case digits. */
  lemma HexShape(c: RGB)
    requires InRange(c)
    ensures |RgbToHex(c)| == 7 && RgbToHex(c)[0] == '#'
    ensures forall i :: 1 <= i < 7 ==> '0' <= RgbToHex(c)[i] <= '9' || 'a' <= RgbToHex(c)[i] <= 'f'
  {
    RgbToHexDigits(c);
    var s := RgbToHex(c);
    forall i | 1 <= i < 7 ensures '0' <= s[i] <= '9' || 'a' <= s[i] <= 'f' {
      var d := [c.r / 16, c.r % 16, c.g / 16, c.g % 16, c.b / 16, c.b % 16];
      assert s[i] == HexDigit(d[i - 1]);
    }
  }

  /** An in-range colour's hex string reads back digit pair by digit pair. */
  lemma ParseHex(c: RGB)
    requires InRange(c)
    ensures ParseColor(RgbToHex(c)) == Some(RGB(16 * (c.r / 16) + c.r % 16, 16 * (c.g / 16) + c.g % 16, 16 * (c.b / 16) + c.b % 16))
  {
    RgbToHexDigits(c);
    ParseDigits(c.r / 16, c.r % 16, c.g / 16, c.g % 16, c.b / 16, c.b % 16);
  }

  /** Hex colours of the four roles. */
  datatype ColorPalette = ColorPalette(primary: string, secondary: string, accent: string, background: string)

  const FALLBACK_PALETTE: ColorPalette := ColorPalette("#3b82f6", "#8b5cf6", "#06b6d4", "#1e293b")

  /** `createColorPalette`, with the secondary colour supplied. */
  function CreateColorPalette(colors: seq<RGB>, secondary: RGB): ColorPalette {
    if |colors| == 0 then FALLBACK_PALETTE
    else
      var primary := Primary(colors);
      ColorPalette(RgbToHex(primary), RgbToHex(secondary), RgbToHex(Accent(primary, secondary, colors)),
                   RgbToHex(Background(colors)))
  }

  /** The fallback palette is four well-formed colours. */
  lemma FallbackWellFormed()
    ensures ParseColor(FALLBACK_PALETTE.primary) == Some(RGB(0x3b, 0x82, 0xf6))
    ensures ParseColor(FALLBACK_PALETTE.secondary) == Some(RGB(0x8b, 0x5c, 0xf6))
    ensures ParseColor(FALLBACK_PALETTE.accent) == Some(RGB(0x06, 0xb6, 0xd4))
    ensures ParseColor(FALLBACK_PALETTE.background) == Some(RGB(0x1e, 0x29, 0x3b))
  {
    assert DigitValue('3') == Some(3) && DigitValue('b') == Some(11) && DigitValue('8') == Some(8);
    assert DigitValue('2') == Some(2) && DigitValue('f') == Some(15) && DigitValue('6') == Some(6);
    assert DigitValue('1') == Some(1) && DigitValue('e') == Some(14) && DigitValue('9') == Some(9);
    assert DigitValue('5') == Some(5) && DigitValue('c') == Some(12) && DigitValue('0') == Some(0);
    assert DigitValue('d') == Some(13) && DigitValue('4') == Some(4);
  }

  /** A palette built from in-range colours reads back as the most vibrant
      listed colour, the given secondary, a colour from the list or the
      synthetic accent, and the darkest listed colour. */
  lemma PaletteSpec(colors: seq<RGB>, secondary: RGB)
    requires |colors| > 0 && InRange(secondary) && forall c :: c in colors ==> InRange(c)
    ensures var p := CreateColorPalette(colors, secondary);
      && ParseColor(p.primary) == Some(Primary(colors))
      && ParseColor(p.secondary) == Some(secondary)
      && ParseColor(p.background) == Some(Background(colors))
      && ParseColor(p.accent).Some?
      && (ParseColor(p.accent).value in colors || ParseColor(p.accent).value == SyntheticAccent(Primary(colors)))
  {
    var primary := Primary(colors);
    var accent := Accent(primary, secondary, colors);
    HexRoundTrip(primary);
    HexRoundTrip(secondary);
    HexRoundTrip(Background(colors));
    if exists i :: 0 <= i < |colors| && FarFromBoth(primary, secondary)(colors[i]) {
      HexRoundTrip(accent);
    } else {
      HexRoundTrip(accent);
    }
  }

  /** The extracted colours are all in range, so the palette built from
      them always reads back as four colours. */
  lemma ExtractedPaletteWellFormed(data: seq<byte>, secondary: RGB)
    requires |data| % 4 == 0 && InRange(secondary)
    ensures var p := CreateColorPalette(DominantColors(data), secondary);
      ParseColor(p.primary).Some? && ParseColor(p.secondary).Some? &&
      ParseColor(p.accent).Some? && ParseColor(p.background).Some?
  {
    var colors := DominantColors(data);
    if |colors| == 0 {
      FallbackWellFormed();
    } else {
      DominantInRange(data);
      PaletteSpec(colors, secondary);
    }
  }

  lemma DominantInRange(data: seq<byte>)
    requires |data| % 4 == 0
    ensures forall c :: c in DominantColors(data) ==> InRange(c)
  {
    var colors := DominantColors(data);
    DominantColorsSpec(data);
    forall c | c in colors ensures InRange(c) {
      var i :| 0 <= i < |colors| && colors[i] == c;
    }
  }
}
