/**
 * `sendLongImage`: cut a tall image into horizontal strips of `chunkHeight` rows and send each
 * strip as its own PNG, top to bottom; on any error send one failure notice instead.
 */
module ImgChunks {
  import opened Wrappers
  import opened Raster
  import opened Messaging

  /** The strip height used when the caller passes none. */
  const DefaultChunkHeight: nat := 800

  /** The one message sent when loading or rendering fails. */
  const SendFailedNotice: string := "图片发送失败，请稍后再试"

  /** `Math.ceil(height / chunkHeight)`: the fewest strips of `chunkHeight` rows that reach `height`. */
  function ChunkCount(height: nat, chunkHeight: nat): (n: nat)
    requires chunkHeight > 0
    ensures height <= n * chunkHeight < height + chunkHeight
  {
    (height + chunkHeight - 1) / chunkHeight
  }

  /** The ceiling is the only count whose strips reach `height` with less than one strip to spare. */
  lemma ChunkCountUnique(height: nat, chunkHeight: nat, m: nat)
    requires chunkHeight > 0
    requires height <= m * chunkHeight < height + chunkHeight
    ensures m == ChunkCount(height, chunkHeight)
  {
    var n := ChunkCount(height, chunkHeight);
    MulGap(m, n, chunkHeight);
    MulGap(n, m, chunkHeight);
  }

  lemma MulMonotone(a: nat, b: nat, c: nat)
    requires a <= b
    ensures a * c <= b * c
  {
  }

  /** Distinct multiples of `c` are at least `c` apart. */
  lemma MulGap(a: nat, b: nat, c: nat)
    ensures a < b ==> a * c + c <= b * c
  {
    if a < b {
      MulMonotone(a + 1, b, c);
    }
  }

  /**
   * Strip `i`: a `width × chunkHeight` canvas drawn from source row `i * chunkHeight`. It starts
   * inside the image exactly when `i` is below the strip count.
   */
  function StripAt(image: Image, chunkHeight: nat, i: nat): (s: Strip)
    ensures s.w == image.width && s.h == chunkHeight
    ensures chunkHeight > 0 ==> (s.y < image.height <==> i < ChunkCount(image.height, chunkHeight))
  {
    if chunkHeight > 0 then
      var n := ChunkCount(image.height, chunkHeight);
      MulGap(i, n, chunkHeight);
      MulGap(n, i + 1, chunkHeight);
      Strip(i * chunkHeight, image.width, chunkHeight)
    else
      Strip(i * chunkHeight, image.width, chunkHeight)
  }

  /** The strips the loop draws, in index order: every one that starts inside the image, and no other. */
  function Strips(image: Image, chunkHeight: nat): (ss: seq<Strip>)
    requires chunkHeight > 0
    ensures forall i :: 0 <= i < |ss| ==> ss[i].y < image.height
    ensures StripAt(image, chunkHeight, |ss|).y >= image.height
  {
    seq(ChunkCount(image.height, chunkHeight), i requires 0 <= i => StripAt(image, chunkHeight, i))
  }

  /** Row `row` of the source lies in strip `s`. */
  predicate Covers(s: Strip, row: nat)
  {
    s.y <= row < s.y + s.h
  }

  /** The number of canvas rows drawn in all, padding included. */
  function TotalRows(ss: seq<Strip>): nat
  {
    if ss == [] then 0 else ss[0].h + TotalRows(ss[1..])
  }

  /**
   * Every strip is the full width and exactly `chunkHeight` rows, the last one too; the first starts
   * at row 0 and each next one starts where the previous one ends, so there is no gap and no overlap.
   */
  lemma StripsContiguous(image: Image, chunkHeight: nat)
    requires chunkHeight > 0
    ensures var ss := Strips(image, chunkHeight);
      (image.height > 0 ==> |ss| > 0 && ss[0].y == 0) &&
      (forall i :: 0 <= i < |ss| ==> ss[i].w == image.width && ss[i].h == chunkHeight) &&
      (forall i :: 0 < i < |ss| ==> ss[i].y == ss[i - 1].y + ss[i - 1].h)
  {
    var ss := Strips(image, chunkHeight);
    forall i | 0 < i < |ss| ensures ss[i].y == ss[i - 1].y + ss[i - 1].h {
      assert i * chunkHeight == (i - 1) * chunkHeight + chunkHeight;
    }
  }

  /** `row / c` names the multiple of `c` at or just below `row`. */
  lemma DivBounds(row: nat, c: nat)
    requires c > 0
    ensures (row / c) * c <= row < (row / c) * c + c
  {
  }

  /** At most one multiple of `c` lies within `c` rows at or below `row`. */
  lemma BandUnique(j: nat, q: nat, c: nat, row: nat)
    requires j * c <= row < j * c + c && q * c <= row < q * c + c
    ensures j == q
  {
    MulGap(j, q, c);
    MulGap(q, j, c);
  }

  /** Every row of the image lies in exactly one strip: strip `row / chunkHeight`. */
  lemma RowCoveredOnce(image: Image, chunkHeight: nat, row: nat)
    requires chunkHeight > 0 && row < image.height
    ensures var ss := Strips(image, chunkHeight);
      row / chunkHeight < |ss| && Covers(ss[row / chunkHeight], row) &&
      forall j :: 0 <= j < |ss| && Covers(ss[j], row) ==> j == row / chunkHeight
  {
    var ss := Strips(image, chunkHeight);
    var q := row / chunkHeight;
    DivBounds(row, chunkHeight);
    assert StripAt(image, chunkHeight, q).y < image.height;
    assert q < |ss| && ss[q] == StripAt(image, chunkHeight, q);
    forall j | 0 <= j < |ss| && Covers(ss[j], row) ensures j == q {
      assert ss[j] == StripAt(image, chunkHeight, j);
      BandUnique(j, q, chunkHeight, row);
    }
  }

  lemma {:induction false} TotalRowsUniform(ss: seq<Strip>, h: nat)
    requires forall i :: 0 <= i < |ss| ==> ss[i].h == h
    ensures TotalRows(ss) == |ss| * h
  {
    if ss != [] {
      TotalRowsUniform(ss[1..], h);
    }
  }

  /** The strips draw at least `height` rows and overshoot by less than one strip. */
  lemma CoverageBounds(image: Image, chunkHeight: nat)
    requires chunkHeight > 0
    ensures var total := TotalRows(Strips(image, chunkHeight));
      image.height <= total < image.height + chunkHeight
  {
    var ss := Strips(image, chunkHeight);
    TotalRowsUniform(ss, chunkHeight);
  }

  /** Division by `c` undoes multiplication by `c`, leaving no remainder. */
  lemma DivMulCancel(n: nat, c: nat)
    requires c > 0
    ensures (n * c) / c == n && (n * c) % c == 0
  {
    var q, r := (n * c) / c, (n * c) % c;
    assert n * c == q * c + r && 0 <= r < c;
    MulGap(q, n, c);
    MulGap(n, q, c);
  }

  /**
   * Coverage is exact precisely when `height` is a multiple of `chunkHeight`; then there are
   * `height / chunkHeight` strips and the last one ends on the last row.
   */
  lemma ExactCoverage(image: Image, chunkHeight: nat)
    requires chunkHeight > 0
    ensures var ss := Strips(image, chunkHeight);
      (TotalRows(ss) == image.height <==> image.height % chunkHeight == 0) &&
      (image.height % chunkHeight == 0 ==>
        |ss| == image.height / chunkHeight &&
        (|ss| > 0 ==> ss[|ss| - 1].y + ss[|ss| - 1].h == image.height))
  {
    var ss := Strips(image, chunkHeight);
    TotalRowsUniform(ss, chunkHeight);
    var n := |ss|;
    DivMulCancel(n, chunkHeight);
    if image.height % chunkHeight == 0 {
      var q := image.height / chunkHeight;
      assert image.height == q * chunkHeight + image.height % chunkHeight;
      ChunkCountUnique(image.height, chunkHeight, q);
      if n > 0 {
        assert (n - 1) * chunkHeight + chunkHeight == n * chunkHeight;
      }
    }
  }

  /** A 4096×9000 image cut at 2048 rows gives five padded strips starting at 0, 2048, 4096, 6144 and 8192. */
  lemma TallImageExample()
    ensures Strips(Image(4096, 9000), 2048) ==
      [Strip(0, 4096, 2048), Strip(2048, 4096, 2048), Strip(4096, 4096, 2048),
       Strip(6144, 4096, 2048), Strip(8192, 4096, 2048)]
  {
    assert ChunkCount(9000, 2048) == 5;
  }

  /** One PNG message per strip, in order. */
  function PngSends(ss: seq<Strip>): seq<Outbound>
  {
    seq(|ss|, i requires 0 <= i < |ss| => PngStrip(ss[i]))
  }

  /** How many strips, from the first, render before the first one that fails. */
  function RenderedPrefix(ss: seq<Strip>, canRender: Strip -> bool): (k: nat)
    ensures k <= |ss|
    ensures forall j :: 0 <= j < k ==> canRender(ss[j])
    ensures k < |ss| ==> !canRender(ss[k])
  {
    if ss == [] || !canRender(ss[0]) then 0
    else 1 + RenderedPrefix(ss[1..], canRender)
  }

  lemma RenderedPrefixAt(ss: seq<Strip>, canRender: Strip -> bool, k: nat)
    requires k <= |ss|
    requires forall j :: 0 <= j < k ==> canRender(ss[j])
    requires k < |ss| ==> !canRender(ss[k])
    ensures RenderedPrefix(ss, canRender) == k
  {
  }

  /**
   * What `sendLongImage` sends: nothing but the failure notice when the image cannot be loaded;
   * otherwise one PNG per strip in index order, stopping with the failure notice at the first
   * strip the raster library cannot render.
   */
  function LongImageLog(decoded: Option<Image>, chunkHeight: nat, canRender: Strip -> bool): seq<Outbound>
    requires chunkHeight > 0
  {
    match decoded
    case None => [Text(SendFailedNotice)]
    case Some(image) =>
      var ss := Strips(image, chunkHeight);
      var k := RenderedPrefix(ss, canRender);
      PngSends(ss[..k]) + (if k < |ss| then [Text(SendFailedNotice)] else [])
  }

  /**
   * `sendLongImage(session, imagePath, chunkHeight)`. `decoded` is what `loadImage` yields for the
   * path (None when it throws) and `canRender` says whether drawing and encoding a strip succeeds.
   */
  method SendLongImage(session: Session, decoded: Option<Image>, canRender: Strip -> bool,
                       chunkHeight: nat := DefaultChunkHeight)
    requires chunkHeight > 0
    modifies session
    ensures session.log == old(session.log) + LongImageLog(decoded, chunkHeight, canRender)
  {
    if decoded.None? {
      session.Send(Text(SendFailedNotice));
      return;
    }
    var image := decoded.value;
    var chunkCount := ChunkCount(image.height, chunkHeight);
    ghost var ss := Strips(image, chunkHeight);
    for i := 0 to chunkCount
      invariant forall j :: 0 <= j < i ==> canRender(ss[j])
      invariant session.log == old(session.log) + PngSends(ss[..i])
    {
      var strip := Strip(i * chunkHeight, image.width, chunkHeight);
      assert strip == ss[i];
      if !canRender(strip) {
        RenderedPrefixAt(ss, canRender, i);
        session.Send(Text(SendFailedNotice));
        return;
      }
      assert PngSends(ss[..i + 1]) == PngSends(ss[..i]) + [PngStrip(strip)];
      session.Send(PngStrip(strip));
    }
    RenderedPrefixAt(ss, canRender, chunkCount);
    assert ss[..chunkCount] == ss;
  }

  /** When every strip renders, exactly `ChunkCount` PNGs are sent, strip `i` as message `i`, and no notice. */
  lemma LongImageAllSent(image: Image, chunkHeight: nat, canRender: Strip -> bool)
    requires chunkHeight > 0
    requires forall i :: 0 <= i < ChunkCount(image.height, chunkHeight) ==> canRender(StripAt(image, chunkHeight, i))
    ensures var log := LongImageLog(Some(image), chunkHeight, canRender);
      |log| == ChunkCount(image.height, chunkHeight) &&
      forall i :: 0 <= i < |log| ==> log[i] == PngStrip(StripAt(image, chunkHeight, i))
  {
    var ss := Strips(image, chunkHeight);
    RenderedPrefixAt(ss, canRender, |ss|);
    assert ss[..|ss|] == ss;
  }

  /**
   * Any error ends the log with exactly one failure notice, after the strips already sent:
   * every earlier message is a PNG strip, sent in increasing row order.
   */
  lemma LongImageFailsOnce(decoded: Option<Image>, chunkHeight: nat, canRender: Strip -> bool)
    requires chunkHeight > 0
    requires decoded.None? ||
      exists i :: 0 <= i < ChunkCount(decoded.value.height, chunkHeight) && !canRender(StripAt(decoded.value, chunkHeight, i))
    ensures var log := LongImageLog(decoded, chunkHeight, canRender);
      |log| > 0 && log[|log| - 1] == Text(SendFailedNotice) &&
      forall i :: 0 <= i < |log| - 1 ==> log[i].PngStrip? && log[i].strip.y == i * chunkHeight
  {
    if decoded.Some? {
      var ss := Strips(decoded.value, chunkHeight);
      var i :| 0 <= i < ChunkCount(decoded.value.height, chunkHeight) && !canRender(StripAt(decoded.value, chunkHeight, i));
      assert !canRender(ss[i]);
    }
  }

  /** The PNGs in any log go strictly top to bottom: message `i` is strip `i`. */
  lemma LongImageInOrder(decoded: Option<Image>, chunkHeight: nat, canRender: Strip -> bool, i: nat, j: nat)
    requires chunkHeight > 0
    requires i < j < |LongImageLog(decoded, chunkHeight, canRender)|
    requires LongImageLog(decoded, chunkHeight, canRender)[j].PngStrip?
    ensures var log := LongImageLog(decoded, chunkHeight, canRender);
      log[i].PngStrip? && log[i].strip.y + chunkHeight == log[i + 1].strip.y && log[i].strip.y < log[j].strip.y
  {
    var log := LongImageLog(decoded, chunkHeight, canRender);
    assert decoded.Some?;
    var ss := Strips(decoded.value, chunkHeight);
    var k := RenderedPrefix(ss, canRender);
    assert log == PngSends(ss[..k]) + (if k < |ss| then [Text(SendFailedNotice)] else []);
    assert j < k;
    assert log[i] == PngStrip(ss[i]) && log[i + 1] == PngStrip(ss[i + 1]) && log[j] == PngStrip(ss[j]);
    MulGap(i, j, chunkHeight);
    assert (i + 1) * chunkHeight == i * chunkHeight + chunkHeight;
  }
}
