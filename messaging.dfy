/** The bot session, reduced to the ordered log of what was handed to `session.send`. */
module Messaging {
  import opened Raster

  /** A path produced by the host's `path.resolve`, kept as the list of segments it joined. */
  datatype HostPath = Resolved(segments: seq<string>)

  /** One outbound message, in the form the plugin built it. */
  datatype Outbound =
    /** plain text */
    | Text(text: string)
    /** `h.image(buffer, 'image/png')` of one rendered strip */
    | PngStrip(strip: Strip)
    /** the text element `<image file=PATH />` */
    | FileElement(path: HostPath)
    /** `h('image', {url: 'data:MIME;base64,…'})` holding the file's bytes */
    | DataUrlImage(mime: string, source: HostPath)
    /** the caption "产品详情图\n路径为PATH" followed by `h.image(buffer, MIME)` */
    | CaptionedBuffer(mime: string, source: HostPath)
    /** `h('image', {file: readStream, filename})` */
    | StreamImage(source: HostPath, filename: string)
    /** `h('image', {file: path})` with a literal path string */
    | ImageFile(file: string)

  /** The session of one incoming message; every `send` appends to `log`, in the order issued. */
  class Session {
    var log: seq<Outbound>

    constructor ()
      ensures log == []
    {
      log := [];
    }

    method Send(m: Outbound)
      modifies this
      ensures log == old(log) + [m]
    {
      log := log + [m];
    }
  }
}
