/**
 * The plugin's `apply`: load the keyword table once, then answer every prefixed message by
 * echoing it, looking the keyword up, and sending the mapped image either whole (four ways)
 * or, when it is larger than the platform's file size limit, as strips.
 */
module SendImg {
  import opened Wrappers
  import opened Raster
  import opened Messaging
  import opened JsString
  import ImgChunks

  datatype Config = Config(imageBasePath: string, prefix: string, keywordJsonPath: string)

  const DefaultConfig: Config := Config("./data/images", "#", "./data/keywords.json")

  /** The limit assumed when the platform reports none (1 MiB). */
  const FallbackFileSizeLimit: int := 1024 * 1024

  /** The strip height used when an oversized image is split. */
  const SplitChunkHeight: nat := 2048

  const SplitNotice: string := "检测到图片较大，已自动拆分发送"

  /** What the file system says about a resolved path: absent, or its byte size and decoded dimensions. */
  datatype FileFacts = Missing | Present(size: nat, decoded: Option<Image>)

  /** How an image is delivered. */
  datatype Delivery = WholeImage | SplitImage(chunkHeight: nat)

  /**
   * `getFileSizeLimit?.() || 1024 * 1024`: the reported limit when it is truthy; a missing
   * function, an undefined result or 0 fall back to 1 MiB, so the limit is never 0.
   */
  function EffectiveLimit(reported: Option<int>): (limit: int)
    ensures limit != 0
    ensures reported.Some? && reported.value != 0 ==> limit == reported.value
    ensures reported.None? || reported.value == 0 ==> limit == FallbackFileSizeLimit
  {
    if reported.Some? && reported.value != 0 then reported.value else FallbackFileSizeLimit
  }

  /** The size gate: split exactly when the file is strictly larger than the limit. */
  function SizeGate(fileSize: nat, limit: int): (d: Delivery)
    ensures d == WholeImage <==> fileSize <= limit
    ensures d.SplitImage? ==> d.chunkHeight == SplitChunkHeight
  {
    if fileSize > limit then SplitImage(SplitChunkHeight) else WholeImage
  }

  /**
   * `content.slice(prefix.length).trim()`: the text after the prefix without its surrounding
   * whitespace; empty exactly when nothing but whitespace follows the prefix.
   */
  function Keyword(content: string, prefix: string): (keyword: string)
    requires prefix <= content
    ensures Unpadded(keyword) && |keyword| <= |content| - |prefix|
    ensures keyword == [] <==> AllWhitespace(content[|prefix|..])
  {
    Trim(content[|prefix|..])
  }

  /** `keywords[userKeyword]` under the truthiness test `!imageFileName`: a missing or empty name is no name. */
  function Lookup(keywords: map<string, string>, keyword: string): (name: Option<string>)
    ensures name.Some? <==> keyword in keywords && keywords[keyword] != ""
    ensures name.Some? ==> name.value == keywords[keyword]
  {
    if keyword in keywords && keywords[keyword] != "" then Some(keywords[keyword]) else None
  }

  /**
   * `path.resolve(ctx.baseDir, config.imageBasePath, imageFileName)`: three segments, the file name
   * last, so distinct names resolve to distinct paths.
   */
  function ImagePath(baseDir: string, config: Config, fileName: string): (p: HostPath)
    ensures |p.segments| == 3 && p.segments[2] == fileName
  {
    Resolved([baseDir, config.imageBasePath, fileName])
  }

  /** The whole-image path: a file element, a base64 data URL, a captioned buffer, then a stream. */
  function WholeImageSends(path: HostPath, fileName: string): seq<Outbound>
  {
    [FileElement(path), DataUrlImage("image/png", path), CaptionedBuffer("image/jpeg", path), StreamImage(path, fileName)]
  }

  /**
   * Everything the message handler sends for one message, in the order the sends are issued.
   * `disk` answers `existsSync`/`stat`/`loadImage` for a path, `reportedLimit` is what
   * `getFileSizeLimit` yields (None when it is missing) and `canRender` says which strips render.
   */
  function MessageActions(config: Config, baseDir: string, keywords: map<string, string>, content: string,
                          disk: HostPath -> FileFacts, reportedLimit: Option<int>,
                          canRender: Strip -> bool): seq<Outbound>
  {
    if !(config.prefix <= content) then []
    else
      var echo := Text(content + "," + config.prefix);
      match Lookup(keywords, Keyword(content, config.prefix))
      case None => [echo]
      case Some(fileName) =>
        var path := ImagePath(baseDir, config, fileName);
        [echo] + DeliveryActions(path, fileName, disk(path), reportedLimit, canRender)
  }

  /** What the handler sends for a found file name: nothing when the file is missing, else per the size gate. */
  function DeliveryActions(path: HostPath, fileName: string, file: FileFacts, reportedLimit: Option<int>,
                           canRender: Strip -> bool): seq<Outbound>
  {
    match file
    case Missing => []
    case Present(size, decoded) =>
      match SizeGate(size, EffectiveLimit(reportedLimit))
      case SplitImage(h) => [Text(SplitNotice)] + ImgChunks.LongImageLog(decoded, h, canRender)
      case WholeImage => WholeImageSends(path, fileName)
  }

  /** The plugin instance `apply` sets up: its configuration and the keyword table the handler reads. */
  class Plugin {
    const config: Config
    const baseDir: string
    var keywords: map<string, string>

    /**
     * `apply`: start from an empty table and replace it with the parsed file; `table` is None when
     * reading or parsing throws, and the table then stays empty.
     */
    constructor Apply(config: Config, baseDir: string, table: Option<map<string, string>>)
      ensures this.config == config && this.baseDir == baseDir
      ensures table.None? ==> keywords == map[]
      ensures table.Some? ==> keywords == table.value
    {
      this.config := config;
      this.baseDir := baseDir;
      keywords := map[];
      if table.Some? {
        keywords := table.value;
      }
    }

    /**
     * The `message` handler. `sendLongImage` is called without `await` and suspends at its
     * `await loadImage` before sending anything, so the split notice is issued before the first strip.
     */
    method OnMessage(session: Session, content: string, disk: HostPath -> FileFacts,
                     reportedLimit: Option<int>, canRender: Strip -> bool)
      modifies session
      ensures session.log == old(session.log) +
        MessageActions(config, baseDir, keywords, content, disk, reportedLimit, canRender)
    {
      if !(config.prefix <= content) {
        return;
      }
      ghost var before := session.log;
      var echo := Text(content + "," + config.prefix);
      session.Send(echo);
      var userKeyword := Trim(content[|config.prefix|..]);
      assert userKeyword == Keyword(content, config.prefix);
      if userKeyword !in keywords || keywords[userKeyword] == "" {
        UnknownKeywordOnlyEcho(config, baseDir, keywords, content, disk, reportedLimit, canRender);
        return;
      }
      var imageFileName := keywords[userKeyword];
      var imagePath := ImagePath(baseDir, config, imageFileName);
      ghost var delivery := DeliveryActions(imagePath, imageFileName, disk(imagePath), reportedLimit, canRender);
      KnownKeywordDelivers(config, baseDir, keywords, content, disk, reportedLimit, canRender);
      Deliver(session, imagePath, imageFileName, disk(imagePath), reportedLimit, canRender);
      AppendAssociative(before, [echo], delivery);
    }
  }

  /**
   * The handler's `try` block: stop when the file does not exist, otherwise compare its size with
   * the effective limit and split it or send it whole.
   */
  method Deliver(session: Session, imagePath: HostPath, imageFileName: string, file: FileFacts,
                 reportedLimit: Option<int>, canRender: Strip -> bool)
    modifies session
    ensures session.log == old(session.log) + DeliveryActions(imagePath, imageFileName, file, reportedLimit, canRender)
  {
    if file.Missing? {
      return;
    }
    var platformLimit := EffectiveLimit(reportedLimit);
    if file.size > platformLimit {
      session.Send(Text(SplitNotice));
      ImgChunks.SendLongImage(session, file.decoded, canRender, SplitChunkHeight);
    } else {
      session.Send(FileElement(imagePath));
      session.Send(DataUrlImage("image/png", imagePath));
      session.Send(CaptionedBuffer("image/jpeg", imagePath));
      session.Send(StreamImage(imagePath, imageFileName));
    }
  }

  lemma AppendAssociative<T>(a: seq<T>, b: seq<T>, c: seq<T>)
    ensures a + b + c == a + (b + c)
  {
  }

  /** A message without the prefix gets no answer at all. */
  lemma UnprefixedIgnored(config: Config, baseDir: string, keywords: map<string, string>, content: string,
                          disk: HostPath -> FileFacts, reportedLimit: Option<int>, canRender: Strip -> bool)
    requires !(config.prefix <= content)
    ensures MessageActions(config, baseDir, keywords, content, disk, reportedLimit, canRender) == []
  {
  }

  /** A prefixed message is first echoed as `content + "," + prefix`, before anything else is sent. */
  lemma EchoFirst(config: Config, baseDir: string, keywords: map<string, string>, content: string,
                  disk: HostPath -> FileFacts, reportedLimit: Option<int>, canRender: Strip -> bool)
    requires config.prefix <= content
    ensures var acts := MessageActions(config, baseDir, keywords, content, disk, reportedLimit, canRender);
      |acts| >= 1 && acts[0] == Text(content + "," + config.prefix)
  {
  }

  /**
   * The keyword is what follows the prefix with surrounding whitespace removed: any message made of
   * the prefix, whitespace, an unpadded word and whitespace looks that word up.
   */
  lemma KeywordOfPaddedMessage(prefix: string, pre: string, word: string, post: string)
    requires AllWhitespace(pre) && AllWhitespace(post) && Unpadded(word)
    ensures prefix <= prefix + pre + word + post
    ensures Keyword(prefix + pre + word + post, prefix) == word
  {
    var content := prefix + pre + word + post;
    assert content[|prefix|..] == pre + word + post;
    TrimUnique(pre, word, post);
  }

  /**
   * With the default configuration a keyword is asked for as `#keyword` and echoed as
   * `#keyword,#`; its file is looked for under `./data/images`, and when it is missing nothing
   * else is sent.
   */
  lemma DefaultConfigMissingFile(baseDir: string, keywords: map<string, string>, word: string,
                                 disk: HostPath -> FileFacts, reportedLimit: Option<int>, canRender: Strip -> bool)
    requires Unpadded(word) && word in keywords && keywords[word] != ""
    requires disk(Resolved([baseDir, "./data/images", keywords[word]])).Missing?
    ensures MessageActions(DefaultConfig, baseDir, keywords, "#" + word, disk, reportedLimit, canRender) ==
      [Text("#" + word + ",#")]
  {
    var config := DefaultConfig;
    var content := "#" + word;
    assert config.prefix == "#" && config.imageBasePath == "./data/images";
    KeywordOfPaddedMessage("#", [], word, []);
    assert "#" + [] + word + [] == content;
    assert Lookup(keywords, Keyword(content, config.prefix)) == Some(keywords[word]);
    assert ImagePath(baseDir, config, keywords[word]) == Resolved([baseDir, "./data/images", keywords[word]]);
    MissingFileOnlyEcho(config, baseDir, keywords, content, disk, reportedLimit, canRender);
    AppendAssociative(content, ",", "#");
    assert "," + "#" == ",#";
  }

  /** An unknown keyword, or one mapped to an empty file name, ends the answer after the echo. */
  lemma UnknownKeywordOnlyEcho(config: Config, baseDir: string, keywords: map<string, string>, content: string,
                               disk: HostPath -> FileFacts, reportedLimit: Option<int>, canRender: Strip -> bool)
    requires config.prefix <= content
    requires var k := Keyword(content, config.prefix); k !in keywords || keywords[k] == ""
    ensures MessageActions(config, baseDir, keywords, content, disk, reportedLimit, canRender) ==
      [Text(content + "," + config.prefix)]
  {
  }

  /** A keyword with a non-empty file name is echoed and then delivered from its resolved path. */
  lemma KnownKeywordDelivers(config: Config, baseDir: string, keywords: map<string, string>, content: string,
                             disk: HostPath -> FileFacts, reportedLimit: Option<int>, canRender: Strip -> bool)
    requires config.prefix <= content
    requires var k := Keyword(content, config.prefix); k in keywords && keywords[k] != ""
    ensures var name := keywords[Keyword(content, config.prefix)];
      var path := ImagePath(baseDir, config, name);
      MessageActions(config, baseDir, keywords, content, disk, reportedLimit, canRender) ==
        [Text(content + "," + config.prefix)] + DeliveryActions(path, name, disk(path), reportedLimit, canRender)
  {
  }

  /** A keyword table that failed to load is empty, so every prefixed message gets only its echo. */
  lemma FailedTableOnlyEchoes(config: Config, baseDir: string, content: string,
                              disk: HostPath -> FileFacts, reportedLimit: Option<int>, canRender: Strip -> bool)
    ensures MessageActions(config, baseDir, map[], content, disk, reportedLimit, canRender) ==
      if config.prefix <= content then [Text(content + "," + config.prefix)] else []
  {
  }

  /** A keyword whose image file does not exist gets only the echo. */
  lemma MissingFileOnlyEcho(config: Config, baseDir: string, keywords: map<string, string>, content: string,
                            disk: HostPath -> FileFacts, reportedLimit: Option<int>, canRender: Strip -> bool)
    requires config.prefix <= content
    requires var name := Lookup(keywords, Keyword(content, config.prefix));
      name.Some? && disk(ImagePath(baseDir, config, name.value)) == Missing
    ensures MessageActions(config, baseDir, keywords, content, disk, reportedLimit, canRender) ==
      [Text(content + "," + config.prefix)]
  {
  }

  /** An image no larger than the limit is sent whole, four times, after the echo: five messages in all. */
  lemma WithinLimitSentWhole(config: Config, baseDir: string, keywords: map<string, string>, content: string,
                             disk: HostPath -> FileFacts, reportedLimit: Option<int>, canRender: Strip -> bool)
    requires config.prefix <= content
    requires var name := Lookup(keywords, Keyword(content, config.prefix));
      name.Some? && disk(ImagePath(baseDir, config, name.value)).Present? &&
      disk(ImagePath(baseDir, config, name.value)).size <= EffectiveLimit(reportedLimit)
    ensures var name := Lookup(keywords, Keyword(content, config.prefix)).value;
      var acts := MessageActions(config, baseDir, keywords, content, disk, reportedLimit, canRender);
      var p := ImagePath(baseDir, config, name);
      acts == [Text(content + "," + config.prefix), FileElement(p), DataUrlImage("image/png", p),
               CaptionedBuffer("image/jpeg", p), StreamImage(p, name)]
  {
  }

  /**
   * An image larger than the limit is announced and split at 2048 rows; when every strip renders,
   * the answer is the echo, the notice and one PNG per strip, strip `i` at position `i + 2`.
   */
  lemma OverLimitSentAsStrips(config: Config, baseDir: string, keywords: map<string, string>, content: string,
                              disk: HostPath -> FileFacts, reportedLimit: Option<int>, canRender: Strip -> bool,
                              image: Image)
    requires config.prefix <= content
    requires var name := Lookup(keywords, Keyword(content, config.prefix));
      name.Some? && disk(ImagePath(baseDir, config, name.value)).Present? &&
      disk(ImagePath(baseDir, config, name.value)).size > EffectiveLimit(reportedLimit) &&
      disk(ImagePath(baseDir, config, name.value)).decoded == Some(image)
    requires forall i :: 0 <= i < ImgChunks.ChunkCount(image.height, SplitChunkHeight) ==>
      canRender(ImgChunks.StripAt(image, SplitChunkHeight, i))
    ensures var acts := MessageActions(config, baseDir, keywords, content, disk, reportedLimit, canRender);
      |acts| == 2 + ImgChunks.ChunkCount(image.height, SplitChunkHeight) &&
      acts[1] == Text(SplitNotice) &&
      forall i :: 2 <= i < |acts| ==> acts[i] == PngStrip(ImgChunks.StripAt(image, SplitChunkHeight, i - 2))
  {
    ImgChunks.LongImageAllSent(image, SplitChunkHeight, canRender);
  }

  /** With no reported limit, 1 MiB exactly is still sent whole and one byte more is split. */
  lemma FallbackLimitBoundary()
    ensures SizeGate(1048576, EffectiveLimit(None)) == WholeImage
    ensures SizeGate(1048577, EffectiveLimit(Some(0))) == SplitImage(2048)
  {
  }
}
