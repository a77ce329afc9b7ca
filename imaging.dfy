/**
 * The OpenCV calls the scripts make, as opaque functions. Pixel numerics
 * (denoising, CLAHE, Gaussian blur, resizing, side-by-side comparison) and
 * image codecs are not modelled; what the scripts do with their results is.
 */
module Imaging {

  import opened Wrappers
  import opened Names
  import opened FileStore

  /** An 8-bit image, as its samples (rows, columns and channels flattened). */
  type Image = seq<Byte>

  /** One filter of the enhancement plan, with its parameters. */
  datatype Stage =
    | Denoise(h: real, hColor: real, template: int, search: int)
    | Clahe(clip: real, grid: int)
    | Unsharp(sigma: real, amount: real, threshold: int)

  /**
   * The library, as seen from the scripts:
   *  - `imread` decodes a file's bytes, `None` when OpenCV cannot;
   *  - `imwrite` encodes an image for a path with the given parameters,
   *    `None` when the write fails;
   *  - `resize`, `filter` and `compare` stand for `cv2.resize`, the filters
   *    of one `Stage`, and `make_compare`;
   *  - `gaussianBlur` is `cv2.GaussianBlur` with a sigma, kernel size derived.
   */
  datatype Vision = Vision(
    imread: Bytes -> Option<Image>,
    imwrite: (Path, Image, seq<int>) -> Option<Bytes>,
    resize: (Image, int, int) -> Image,
    filter: (Image, Stage) -> Image,
    compare: (Image, Image) -> Image,
    gaussianBlur: (Image, real) -> Image)

  /** `GaussianBlur` returns an image of the shape it was given. */
  ghost predicate BlurKeepsShape(v: Vision) {
    forall im, sigma :: |v.gaussianBlur(im, sigma)| == |im|
  }
}
