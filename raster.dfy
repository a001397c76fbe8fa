/** The raster library seen only through geometry: pixel data and PNG encoding are not modelled. */
module Raster {

  /** A decoded image: only its pixel dimensions are visible to the plugin. */
  datatype Image = Image(width: nat, height: nat)

  /** One canvas drawn from a source image: `w` by `h` pixels whose top row is source row `y`. */
  datatype Strip = Strip(y: nat, w: nat, h: nat)
}
