/**
 * Screenshot post-processing (winappdriver-web/utils/image_utils.py):
 * strip a data-URI prefix, decode, composite images that carry transparency
 * or a palette onto a white canvas of the same size, re-encode as JPEG, and
 * return the base64 text of the encoder's bytes.
 *
 * Decoding, JPEG encoding and resampling belong to the imaging library and
 * are parameters (`Codec`); the prefix rule, the mode dispatch, the
 * composite, the thumbnail size and the base64 wrapping are modelled.
 */
module ImageUtils {
  import opened Common
  import Base64

  // ---------------------------------------------------------------- data-URI prefix

  const DataImage := "data:image"
  const DataImageSlash := "data:image/"
  const Base64Marker := ";base64,"

  /**
   * `^data:image/.+;base64,` matches the first `j + 8` characters of `s`:
   * the fixed head, at least one character other than a newline, then the marker at `j`.
   */
  predicate PrefixMatch(s: string, j: int)
  {
    |DataImageSlash| < j && MarkerAt(s, j)
    && s[..|DataImageSlash|] == DataImageSlash
    && forall k :: |DataImageSlash| <= k < j ==> s[k] != '\n'
  }

  /** `;base64,` starts at index `j` of `s`. */
  predicate MarkerAt(s: string, j: int)
  {
    0 <= j && j + |Base64Marker| <= |s| && s[j..j + |Base64Marker|] == Base64Marker
  }

  /** The first index at or after `i` that holds a newline, or `|s|`. */
  function LineEnd(s: string, i: nat): (e: nat)
    requires i <= |s|
    ensures i <= e <= |s|
    ensures forall k :: i <= k < e ==> s[k] != '\n'
    ensures e < |s| ==> s[e] == '\n'
    decreases |s| - i
  {
    if i == |s| || s[i] == '\n' then i else LineEnd(s, i + 1)
  }

  /** The largest marker position at or below `j` that follows the head. */
  function MarkerAtOrBelow(s: string, j: int): (r: Option<nat>)
    requires j + |Base64Marker| <= |s|
    ensures r.Some? ==> |DataImageSlash| < r.value <= j && MarkerAt(s, r.value)
    ensures r.None? ==> forall k :: |DataImageSlash| < k <= j ==> !MarkerAt(s, k)
    ensures r.Some? ==> forall k :: r.value < k <= j ==> !MarkerAt(s, k)
    decreases j
  {
    if j <= |DataImageSlash| then None
    else if MarkerAt(s, j) then Some(j)
    else MarkerAtOrBelow(s, j - 1)
  }

  /**
   * Where the greedy match of `^data:image/.+;base64,` puts the marker: the
   * last marker on the first line after the head, or None when the pattern
   * does not match at all.
   */
  function LongestMatch(s: string): (r: Option<nat>)
    ensures r.Some? ==> PrefixMatch(s, r.value)
    ensures r.Some? ==> forall k :: PrefixMatch(s, k) ==> k <= r.value
    ensures r.None? ==> forall k :: !PrefixMatch(s, k)
  {
    if |s| < |DataImageSlash| || s[..|DataImageSlash|] != DataImageSlash then None
    else
      var e := LineEnd(s, |DataImageSlash|);
      var top := if e + |Base64Marker| <= |s| then e else |s| - |Base64Marker|;
      if top < 0 then None
      else
        var m := MarkerAtOrBelow(s, top);
        assert forall k :: PrefixMatch(s, k) ==> k <= top;
        if m.None? then None
        else
          assert m.value <= e;
          m
  }

  /** The input with its data-URI prefix removed, as the two image functions do before decoding. */
  function StripDataUri(s: string): (r: string)
    ensures !StartsWith(s, DataImage) ==> r == s
    ensures LongestMatch(s).None? ==> r == s
    ensures LongestMatch(s).Some? ==> r == s[LongestMatch(s).value + |Base64Marker|..]
  {
    if !StartsWith(s, DataImage) then s
    else match LongestMatch(s)
      case None => s
      case Some(j) => s[j + |Base64Marker|..]
  }

  /**
   * The usual case: `data:image/<type>;base64,<payload>` with a payload of
   * base64 characters gives back exactly the payload.
   */
  lemma StripDataUriOfBase64Payload(subtype: string, payload: string)
    requires subtype != [] && forall k :: 0 <= k < |subtype| ==> subtype[k] != '\n'
    requires forall k :: 0 <= k < |payload| ==> Base64.IsBase64Char(payload[k]) || payload[k] == '='
    ensures StripDataUri(DataImageSlash + subtype + Base64Marker + payload) == payload
  {
    var s := DataImageSlash + subtype + Base64Marker + payload;
    var j := |DataImageSlash| + |subtype|;
    assert s[..|DataImage|] == DataImage;
    assert s[..|DataImageSlash|] == DataImageSlash;
    assert s[j..j + |Base64Marker|] == Base64Marker;
    forall k | |DataImageSlash| <= k < j ensures s[k] != '\n' {
      assert s[k] == subtype[k - |DataImageSlash|];
    }
    assert PrefixMatch(s, j);
    forall k | k > j ensures !MarkerAt(s, k) {
      if k + |Base64Marker| <= |s| {
        assert s[k..k + |Base64Marker|][0] == s[k];
        if k < j + |Base64Marker| {
          assert s[k] == Base64Marker[k - j];
        } else {
          assert s[k] == payload[k - j - |Base64Marker|];
        }
      }
    }
    assert s[j + |Base64Marker|..] == payload;
  }

  /** The match is greedy: everything up to the last marker of the first line goes. */
  lemma StripDataUriIsGreedy()
    ensures StripDataUri("data:image/png;base64,AAAA;base64,QUJD") == "QUJD"
  {
    var s := "data:image/png;base64,AAAA;base64,QUJD";
    assert MarkerAt(s, 26);
    assert s[..|DataImageSlash|] == DataImageSlash;
    assert PrefixMatch(s, 26);
    forall k | k > 26 ensures !MarkerAt(s, k) {
      if 26 < k <= |s| - |Base64Marker| {
        assert s[k..k + |Base64Marker|][0] == s[k];
        assert s[27..31] == "base";
      }
    }
  }

  // ---------------------------------------------------------------- images

  /**
   * A decoded image: its mode name, its size, one sequence of band values
   * per pixel in row-major order, and (mode "P") an RGBA palette.
   */
  datatype Image = Image(mode: string, width: nat, height: nat, pixels: seq<seq<int>>, palette: seq<seq<int>>)

  predicate IsChannel(v: int)
  {
    0 <= v <= 255
  }

  predicate IsPixel(p: seq<int>, bands: nat)
  {
    |p| == bands && forall c :: 0 <= c < |p| ==> IsChannel(p[c])
  }

  /** What the decoder guarantees of the images it returns, for the modes the composite reads. */
  predicate WellFormed(img: Image)
  {
    |img.pixels| == img.width * img.height
    && (img.mode == "RGBA" ==> forall i :: 0 <= i < |img.pixels| ==> IsPixel(img.pixels[i], 4))
    && (img.mode == "LA" ==> forall i :: 0 <= i < |img.pixels| ==> IsPixel(img.pixels[i], 2))
    && (img.mode == "P" ==>
          (forall e :: 0 <= e < |img.palette| ==> IsPixel(img.palette[e], 4))
          && forall i :: 0 <= i < |img.pixels| ==> |img.pixels[i]| == 1 && 0 <= img.pixels[i][0] < |img.palette|)
  }

  /**
   * The imaging library, abstracted: `open` is `Image.open(BytesIO(base64.b64decode(text)))`,
   * `save` is the JPEG encoder (`optimize=True`) at a quality, `resample` is a LANCZOS resize;
   * each failure carries the text of the exception raised.
   */
  datatype Codec = Codec(
    open: string -> Result<Image, string>,
    save: (Image, int) -> Result<seq<byte>, string>,
    resample: (Image, nat, nat) -> Image)

  /** The library contract the model relies on. */
  ghost predicate CodecContract(codec: Codec)
  {
    (forall text :: codec.open(text).Ok? ==> WellFormed(codec.open(text).value))
    && forall img, w, h :: WellFormed(img) ==>
         var r := codec.resample(img, w, h);
         WellFormed(r) && r.width == w && r.height == h && r.mode == img.mode
  }

  /** The modes that are composited onto a white canvas before JPEG encoding. */
  predicate NeedsComposite(mode: string)
    ensures mode == "RGB" ==> !NeedsComposite(mode)
    ensures mode == "P" ==> NeedsComposite(mode)
  {
    mode in {"RGBA", "LA", "P"}
  }

  const White: seq<int> := [255, 255, 255]

  /**
   * One channel of a paste through a mask: the canvas value where the mask is 0,
   * the pasted value where it is 255, in between proportionally (rounded to nearest).
   */
  function Blend(canvas: int, pasted: int, mask: int): (v: int)
    ensures IsChannel(canvas) && mask == 0 ==> v == canvas
    ensures IsChannel(pasted) && mask == 255 ==> v == pasted
  {
    (pasted * mask + canvas * (255 - mask) + 127) / 255
  }

  lemma BlendInRange(canvas: int, pasted: int, mask: int)
    requires IsChannel(canvas) && IsChannel(pasted) && IsChannel(mask)
    ensures IsChannel(Blend(canvas, pasted, mask))
  {
    var sum := pasted * mask + canvas * (255 - mask);
    ProductBound(pasted, mask);
    ProductBound(canvas, 255 - mask);
    assert 0 <= sum <= 255 * 255;
    RoundedQuotientBound(sum);
  }

  lemma ProductBound(channel: int, weight: int)
    requires IsChannel(channel) && 0 <= weight
    ensures 0 <= channel * weight <= 255 * weight
  {
  }

  lemma RoundedQuotientBound(sum: int)
    requires 0 <= sum <= 255 * 255
    ensures 0 <= (sum + 127) / 255 <= 255
  {
  }

  /** `image.convert('RGBA')` of a palette image: each index replaced by its palette entry. */
  function PaletteToRgba(img: Image): (r: Image)
    requires WellFormed(img) && img.mode == "P"
    ensures WellFormed(r) && r.mode == "RGBA" && r.width == img.width && r.height == img.height
    ensures forall i :: 0 <= i < |r.pixels| ==> r.pixels[i] == img.palette[img.pixels[i][0]]
  {
    Image("RGBA", img.width, img.height, seq(|img.pixels|, i requires 0 <= i < |img.pixels| => img.palette[img.pixels[i][0]]), [])
  }

  /** One canvas pixel after pasting an RGBA or LA pixel onto it with its own alpha as the mask. */
  function PastePixel(canvas: seq<int>, mode: string, p: seq<int>): (r: seq<int>)
    requires IsPixel(canvas, 3)
    requires mode == "RGBA" ==> IsPixel(p, 4)
    requires mode != "RGBA" ==> IsPixel(p, 2)
    ensures IsPixel(r, 3)
  {
    if mode == "RGBA" then
      BlendInRange(canvas[0], p[0], p[3]);
      BlendInRange(canvas[1], p[1], p[3]);
      BlendInRange(canvas[2], p[2], p[3]);
      [Blend(canvas[0], p[0], p[3]), Blend(canvas[1], p[1], p[3]), Blend(canvas[2], p[2], p[3])]
    else
      BlendInRange(canvas[0], p[0], p[1]);
      BlendInRange(canvas[1], p[0], p[1]);
      BlendInRange(canvas[2], p[0], p[1]);
      [Blend(canvas[0], p[0], p[1]), Blend(canvas[1], p[0], p[1]), Blend(canvas[2], p[0], p[1])]
  }

  /** The alpha band of an RGBA or LA pixel: the mask `image.split()[-1]` gives. */
  function Alpha(mode: string, p: seq<int>): int
    requires mode == "RGBA" ==> |p| == 4
    requires mode != "RGBA" ==> |p| == 2
  {
    if mode == "RGBA" then p[3] else p[1]
  }

  /** The colour of an RGBA or LA pixel as RGB (grey for LA). */
  function Colour(mode: string, p: seq<int>): seq<int>
    requires mode == "RGBA" ==> |p| == 4
    requires mode != "RGBA" ==> |p| == 2
  {
    if mode == "RGBA" then p[..3] else [p[0], p[0], p[0]]
  }

  /** Where the mask is 0 the white canvas shows; where it is 255 the pasted colour does. */
  lemma PasteOnWhiteEnds(mode: string, p: seq<int>)
    requires mode == "RGBA" ==> IsPixel(p, 4)
    requires mode != "RGBA" ==> IsPixel(p, 2)
    ensures Alpha(mode, p) == 0 ==> PastePixel(White, mode, p) == White
    ensures Alpha(mode, p) == 255 ==> PastePixel(White, mode, p) == Colour(mode, p)
  {
  }

  /** `background.paste(image, mask=alpha)` over a white RGB canvas, as a whole image. */
  function OnWhite(img: Image): (r: Image)
    requires WellFormed(img) && img.mode in {"RGBA", "LA"}
    ensures WellFormed(r) && r.mode == "RGB" && r.width == img.width && r.height == img.height
    ensures forall i :: 0 <= i < |r.pixels| ==> IsPixel(r.pixels[i], 3)
  {
    Image("RGB", img.width, img.height,
      seq(|img.pixels|, i requires 0 <= i < |img.pixels| => PastePixel(White, img.mode, img.pixels[i])), [])
  }

  /**
   * What the JPEG encoder is given: RGBA, LA and P images composited onto a
   * same-size white RGB canvas (P first converted to RGBA), any other mode unchanged.
   */
  function Normalized(img: Image): (r: Image)
    requires WellFormed(img)
    ensures WellFormed(r)
    ensures !NeedsComposite(img.mode) ==> r == img
    ensures NeedsComposite(img.mode) ==> r.mode == "RGB" && r.width == img.width && r.height == img.height
  {
    if img.mode == "P" then OnWhite(PaletteToRgba(img))
    else if img.mode in {"RGBA", "LA"} then OnWhite(img)
    else img
  }

  /**
   * After compositing, a fully transparent pixel is white and a fully opaque
   * one keeps its colour (for P, the colour and alpha of its palette entry).
   */
  lemma NormalizedTransparency(img: Image, i: nat)
    requires WellFormed(img) && NeedsComposite(img.mode) && i < |img.pixels|
    ensures var src := if img.mode == "P" then PaletteToRgba(img) else img;
            var mode := src.mode;
            i < |src.pixels| && i < |Normalized(img).pixels|
            && (Alpha(mode, src.pixels[i]) == 0 ==> Normalized(img).pixels[i] == White)
            && (Alpha(mode, src.pixels[i]) == 255 ==> Normalized(img).pixels[i] == Colour(mode, src.pixels[i]))
  {
    var src := if img.mode == "P" then PaletteToRgba(img) else img;
    PasteOnWhiteEnds(src.mode, src.pixels[i]);
  }

  /** Normalizing twice is normalizing once: the composite's RGB result needs no further composite. */
  lemma NormalizedIdempotent(img: Image)
    requires WellFormed(img)
    ensures Normalized(Normalized(img)) == Normalized(img)
  {
  }

  /**
   * The composite as the source performs it: a new white canvas of the same
   * size, then the image pasted onto it pixel by pixel through its alpha.
   */
  method CompositeOnWhite(img: Image) returns (r: Image)
    requires WellFormed(img) && img.mode in {"RGBA", "LA"}
    ensures r == OnWhite(img)
  {
    var n := |img.pixels|;
    var background := new seq<int>[n](_ => White);
    var i := 0;
    while i < n
      invariant 0 <= i <= n
      invariant forall k :: 0 <= k < i ==> background[k] == PastePixel(White, img.mode, img.pixels[k])
      invariant forall k :: i <= k < n ==> background[k] == White
    {
      background[i] := PastePixel(background[i], img.mode, img.pixels[i]);
      i := i + 1;
    }
    r := Image("RGB", img.width, img.height, background[..], []);
  }

  /** `Normalized`, computed the way the source does it. */
  method Normalize(img: Image) returns (r: Image)
    requires WellFormed(img)
    ensures r == Normalized(img)
  {
    r := img;
    if NeedsComposite(r.mode) {
      if r.mode == "P" {
        r := PaletteToRgba(r);
      }
      r := CompositeOnWhite(r);
    }
  }

  // ---------------------------------------------------------------- the two entry points

  const DefaultQuality := 80

  /**
   * What `compress_image` returns: the base64 text of the JPEG bytes of the
   * normalized image, or the text of the exception the decoder or the encoder raised.
   */
  function Compressed(data: string, quality: int, codec: Codec): (r: Result<string, string>)
    requires CodecContract(codec)
    ensures codec.open(StripDataUri(data)).Err? ==> r == Err(codec.open(StripDataUri(data)).error)
    ensures codec.open(StripDataUri(data)).Ok? ==>
              var saved := codec.save(Normalized(codec.open(StripDataUri(data)).value), quality);
              (r.Ok? <==> saved.Ok?)
              && (r.Ok? ==> Base64.Decode(r.value) == Some(saved.value))
              && (r.Err? ==> r.error == saved.error)
  {
    match codec.open(StripDataUri(data))
    case Err(e) => Err(e)
    case Ok(img) =>
      match codec.save(Normalized(img), quality)
      case Err(e) => Err(e)
      case Ok(bytes) =>
        Base64.DecodeEncode(bytes);
        Ok(Base64.Encode(bytes))
  }

  /** `compress_image`, computed the way the source does it. */
  method CompressImage(data: string, quality: int, codec: Codec) returns (r: Result<string, string>)
    requires CodecContract(codec)
    ensures r == Compressed(data, quality, codec)
  {
    var decoded := codec.open(StripDataUri(data));
    if decoded.Err? {
      return Err(decoded.error);
    }
    var img := Normalize(decoded.value);
    var saved := codec.save(img, quality);
    if saved.Err? {
      return Err(saved.error);
    }
    r := Ok(Base64.Encode(saved.value));
  }

  /**
   * The size `thumbnail` gives an image of `w` x `h` within `maxW` x `maxH`:
   * unchanged when it already fits, otherwise scaled down so that the binding
   * side meets its bound and the other side is the proportional size rounded
   * down (never below one pixel).
   */
  function ThumbnailSize(w: nat, h: nat, maxW: nat, maxH: nat): (r: (nat, nat))
    requires maxW >= 1 && maxH >= 1
    ensures w <= maxW && h <= maxH ==> r == (w, h)
    ensures r.0 <= maxW && r.1 <= maxH
    ensures w >= 1 && h >= 1 ==> 1 <= r.0 <= w && 1 <= r.1 <= h
    ensures w >= 1 && h >= 1 && !(w <= maxW && h <= maxH) ==>
              (r.1 == maxH && (r.0 == 1 || r.0 * h <= w * maxH < (r.0 + 1) * h))
              || (r.0 == maxW && (r.1 == 1 || r.1 * w <= h * maxW < (r.1 + 1) * w))
  {
    if w <= maxW && h <= maxH then (w, h)
    else if w == 0 || h == 0 then (if w <= maxW then w else maxW, if h <= maxH then h else maxH)
    else if w * maxH <= h * maxW then
      ScaledSide(w, h, maxW, maxH);
      (if w * maxH / h >= 1 then w * maxH / h else 1, maxH)
    else
      ScaledSide(h, w, maxH, maxW);
      (maxW, if h * maxW / w >= 1 then h * maxW / w else 1)
  }

  /** `image.thumbnail((maxW, maxH))`: the image itself when it fits, otherwise resampled to `ThumbnailSize`. */
  function Thumbnail(img: Image, maxW: nat, maxH: nat, codec: Codec): (r: Image)
    requires maxW >= 1 && maxH >= 1 && WellFormed(img) && CodecContract(codec)
    ensures WellFormed(r) && r.mode == img.mode
    ensures (r.width, r.height) == ThumbnailSize(img.width, img.height, maxW, maxH)
  {
    if img.width <= maxW && img.height <= maxH then img
    else
      var size := ThumbnailSize(img.width, img.height, maxW, maxH);
      codec.resample(img, size.0, size.1)
  }

  /**
   * What `resize_image` hands to the encoder fits within the bounds, never
   * exceeds the original size, and is the original when that already fits.
   */
  lemma ResizedWithinBounds(img: Image, maxW: nat, maxH: nat, codec: Codec)
    requires maxW >= 1 && maxH >= 1 && WellFormed(img) && CodecContract(codec)
    ensures var out := Normalized(Thumbnail(img, maxW, maxH, codec));
            out.width <= maxW && out.height <= maxH
            && (img.width >= 1 && img.height >= 1 ==> out.width <= img.width && out.height <= img.height)
            && (img.width <= maxW && img.height <= maxH ==> out == Normalized(img))
  {
  }

  /**
   * `resize_image`: like `compress_image`, but the image is first reduced to
   * fit `maxW` x `maxH` (800 x 600 when the caller gives no bounds) and is
   * always encoded at quality 80.
   */
  method ResizeImage(data: string, maxW: nat, maxH: nat, codec: Codec) returns (r: Result<string, string>)
    requires maxW >= 1 && maxH >= 1 && CodecContract(codec)
    ensures codec.open(StripDataUri(data)).Err? ==> r == Err(codec.open(StripDataUri(data)).error)
    ensures codec.open(StripDataUri(data)).Ok? ==>
              var img := codec.open(StripDataUri(data)).value;
              var saved := codec.save(Normalized(Thumbnail(img, maxW, maxH, codec)), DefaultQuality);
              r == (if saved.Ok? then Ok(Base64.Encode(saved.value)) else Err(saved.error))
              && (r.Ok? ==> Base64.Decode(r.value) == Some(saved.value))
  {
    var decoded := codec.open(StripDataUri(data));
    if decoded.Err? {
      return Err(decoded.error);
    }
    var img := Thumbnail(decoded.value, maxW, maxH, codec);
    img := Normalize(img);
    var saved := codec.save(img, DefaultQuality);
    if saved.Err? {
      return Err(saved.error);
    }
    Base64.DecodeEncode(saved.value);
    r := Ok(Base64.Encode(saved.value));
  }

  /**
   * When the height `h` exceeds `maxH` and binds (w/h <= maxW/maxH), the
   * proportional width fits, is no wider than `w`, and is its floor.
   */
  lemma ScaledSide(w: nat, h: nat, maxW: nat, maxH: nat)
    requires w >= 1 && h >= 1 && maxW >= 1 && maxH >= 1
    requires !(w <= maxW && h <= maxH) && w * maxH <= h * maxW
    ensures maxH < h
    ensures w * maxH / h <= maxW && w * maxH / h <= w
    ensures (w * maxH / h) * h <= w * maxH < (w * maxH / h + 1) * h
  {
    BindingSideExceeds(w, h, maxW, maxH);
    var x := w * maxH;
    var q := x / h;
    DivBounds(x, h);
    QuotientAtMost(x, h, q, maxW);
    MulStrictLeft(w, maxH, h);
    QuotientAtMost(x, h, q, w);
  }

  lemma BindingSideExceeds(w: nat, h: nat, maxW: nat, maxH: nat)
    requires w >= 1 && h >= 1 && maxW >= 1 && maxH >= 1
    requires !(w <= maxW && h <= maxH) && w * maxH <= h * maxW
    ensures maxH < h
  {
    if h <= maxH {
      MulLeftMono(w, h, maxH);
      MulStrictRight(maxW, w, h);
    }
  }

  /** A quotient is at most any `m` with `x <= m * d`. */
  lemma QuotientAtMost(x: nat, d: nat, q: nat, m: nat)
    requires d >= 1 && q * d <= x && x <= m * d
    ensures q <= m
  {
    if q > m {
      MulRightMono(m + 1, q, d);
    }
  }

  lemma MulLeftMono(a: nat, b: nat, c: nat)
    requires b <= c
    ensures a * b <= a * c
  {
  }

  lemma MulRightMono(a: nat, b: nat, c: nat)
    requires a <= b
    ensures a * c <= b * c
  {
  }

  lemma MulStrictRight(a: nat, b: nat, c: nat)
    requires a < b && c >= 1
    ensures a * c < b * c
  {
  }

  lemma MulStrictLeft(a: nat, b: nat, c: nat)
    requires b < c && a >= 1
    ensures a * b < a * c
  {
  }

  lemma DivBounds(x: nat, d: nat)
    requires d >= 1
    ensures (x / d) * d <= x < (x / d + 1) * d
  {
  }
}
