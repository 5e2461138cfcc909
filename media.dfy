/**
 * Video frames as the pipeline sees them. Pixel data is opaque: the model
 * never looks inside it, it only carries it from the decoder to the encoder.
 */
module Media {

  /** A decoded frame; `height` and `width` are `frame.shape[:2]`. */
  datatype Frame = Frame(height: nat, width: nat, pixels: seq<bv8>)

}
