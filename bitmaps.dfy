/**
 * Bitmaps as abstract values: size and pixel format are explicit, the pixels are
 * a symbolic picture that records how it was produced (decoded, drawn over).
 */
module Bitmaps {
  import opened Wrappers

  /** `Bitmap.Config`, with the bytes each pixel takes. */
  datatype Config = Argb8888 | Rgb565 | Argb4444 | Alpha8
  {
    function BytesPerPixel(): nat {
      match this
      case Argb8888 => 4
      case Rgb565 => 2
      case Argb4444 => 2
      case Alpha8 => 1
    }
  }

  /** What the pixels show: a downloaded or resource image, a decoded JPEG, or one picture drawn over another. */
  datatype Picture =
    | Source(handle: nat)
    | JpegDecoded(original: Picture, quality: int)
    | DrawnOver(base: Picture, top: Picture)

  datatype Bitmap = Bitmap(width: nat, height: nat, config: Config, picture: Picture)
  {
    /** `getRowBytes()`: bytes per pixel row. */
    function RowBytes(): nat {
      width * config.BytesPerPixel()
    }

    /** `getRowBytes() * getHeight()`: the bytes the pixels occupy. */
    function ByteCount(): nat {
      RowBytes() * height
    }
  }

  /**
   * `drawBitmapOverlay`: a new bitmap with the width, height and config of
   * `bitmap`, showing `bitmap` with `overlay` drawn on top at the origin.
   */
  function DrawBitmapOverlay(bitmap: Bitmap, overlay: Bitmap): (r: Bitmap)
    ensures r.width == bitmap.width && r.height == bitmap.height && r.config == bitmap.config
    ensures r.ByteCount() == bitmap.ByteCount()
    ensures r != bitmap && r.picture.DrawnOver? && r.picture.base == bitmap.picture
  {
    var picture := DrawnOver(bitmap.picture, overlay.picture);
    assert picture != bitmap.picture by {
      assert bitmap.picture < picture;
    }
    Bitmap(bitmap.width, bitmap.height, bitmap.config, picture)
  }

  /** The JPEG quality every variant compresses thumbnails with. */
  const JpegQuality := 90

  /**
   * A thumbnail file in a disk cache directory: a JPEG written by `compress`,
   * or a file that was opened for writing but never written.
   */
  datatype DiskFile = Jpeg(image: Bitmap, quality: int) | Empty

  /** `compress(JPEG, 90, out)` of a bitmap into a freshly created file. */
  function Compress(bitmap: Bitmap): (f: DiskFile)
    ensures Decode(f).Some?
    ensures Decode(f).value.width == bitmap.width && Decode(f).value.height == bitmap.height
  {
    Jpeg(bitmap, JpegQuality)
  }

  /**
   * `BitmapFactory.decodeFile`: null for an empty file; a JPEG decodes to a
   * full-colour bitmap of the stored size.
   */
  function Decode(f: DiskFile): (r: Option<Bitmap>)
    ensures r.Some? <==> f.Jpeg?
    ensures r.Some? ==> r.value.width == f.image.width && r.value.height == f.image.height && r.value.config == Argb8888
  {
    match f
    case Jpeg(image, quality) => Some(Bitmap(image.width, image.height, Argb8888, JpegDecoded(image.picture, quality)))
    case Empty => None
  }
}
