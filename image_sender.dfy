/**
 * The product-image middleware: a prefixed message names a product model; a well-formed model
 * is answered with the image of the first configured type, anything else with a text reply.
 */
module ImageSender {
  import opened Messaging
  import opened JsString

  datatype Config = Config(prefix: string, imageLibraryPath: string, imageTypes: seq<string>)

  const DefaultConfig: Config := Config("#", "./data/images/", ["details", "intro"])

  const NotFoundReply: string := "未找到该产品的图片"

  const InvalidModelReply: string := "产品型号应由字母和数字构成"

  predicate IsAsciiAlphanumeric(c: char)
  {
    'a' <= c <= 'z' || 'A' <= c <= 'Z' || '0' <= c <= '9'
  }

  /**
   * `/^[a-zA-Z0-9]+$/.test(s)`: one or more ASCII letters and digits, and nothing else. Such a
   * model has no whitespace at either end, no path separator and no dot.
   */
  predicate IsProductModel(s: string)
    ensures IsProductModel(s) ==> s != [] && Unpadded(s) && '/' !in s && '.' !in s
  {
    |s| > 0 && forall i :: 0 <= i < |s| ==> IsAsciiAlphanumeric(s[i])
  }

  /** `${imageLibraryPath}/${type}/${productModel}.jpg`, by plain concatenation. */
  function ProductImagePath(lib: string, imageType: string, model: string): (p: string)
    ensures |p| == |lib| + |imageType| + |model| + 6
    ensures p[..|lib|] == lib && p[|p| - 4..] == ".jpg"
  {
    lib + "/" + imageType + "/" + model + ".jpg"
  }

  /** The path can be taken apart again: library, type and model sit at fixed positions. */
  lemma ProductImagePathParts(lib: string, imageType: string, model: string)
    ensures var p := ProductImagePath(lib, imageType, model);
      |p| == |lib| + |imageType| + |model| + 6 &&
      p[..|lib|] == lib && p[|lib|] == '/' &&
      p[|lib| + 1..|lib| + 1 + |imageType|] == imageType && p[|lib| + 1 + |imageType|] == '/' &&
      p[|lib| + |imageType| + 2..|p| - 4] == model && p[|p| - 4..] == ".jpg"
  {
    var p := ProductImagePath(lib, imageType, model);
    assert p == lib + ("/" + imageType + "/" + model + ".jpg");
    assert p[|lib| + 1..] == imageType + "/" + model + ".jpg";
    assert p[|lib| + |imageType| + 2..] == model + ".jpg";
  }

  /** The default library path already ends in `/`, so default paths contain `//`. */
  lemma DefaultLibraryDoubleSlash(imageType: string, model: string)
    ensures ProductImagePath(DefaultConfig.imageLibraryPath, imageType, model) ==
      "./data/images//" + imageType + "/" + model + ".jpg"
  {
  }

  /** A valid model is already trimmed and cannot hold a path separator or a dot. */
  lemma ProductModelIsPathSafe(model: string)
    requires IsProductModel(model)
    ensures Trim(model) == model
    ensures '/' !in model && '.' !in model
  {
    assert [] + model + [] == model;
    TrimUnique([], model, []);
  }

  /** The answer to one message: what is sent, and whether the chain continues with `next()`. */
  datatype Reaction = Reaction(sent: seq<Outbound>, callsNext: bool)

  /** The middleware's answer, with the path tried for each type in order and the first one sent. */
  function Respond(config: Config, content: string): Reaction
  {
    if !(config.prefix <= content) then Reaction([], true)
    else
      var model := Trim(content[|config.prefix|..]);
      if !IsProductModel(model) then Reaction([Text(InvalidModelReply)], true)
      else if |config.imageTypes| > 0 then
        Reaction([ImageFile(ProductImagePath(config.imageLibraryPath, config.imageTypes[0], model))], false)
      else Reaction([Text(NotFoundReply)], true)
  }

  /**
   * The middleware. `session.send` is not awaited, so it cannot throw inside the `try`: the
   * `catch`/`continue` is never taken and the loop returns in its first iteration.
   */
  method Middleware(session: Session, config: Config, content: string) returns (callsNext: bool)
    modifies session
    ensures session.log == old(session.log) + Respond(config, content).sent
    ensures callsNext == Respond(config, content).callsNext
  {
    if config.prefix <= content {
      var productModel := Trim(content[|config.prefix|..]);
      if IsProductModel(productModel) {
        for i := 0 to |config.imageTypes|
          invariant i == 0
          invariant session.log == old(session.log)
        {
          var imagePath := ProductImagePath(config.imageLibraryPath, config.imageTypes[i], productModel);
          session.Send(ImageFile(imagePath));
          return false;
        }
        session.Send(Text(NotFoundReply));
      } else {
        session.Send(Text(InvalidModelReply));
      }
    }
    return true;
  }

  /** An unprefixed message sends nothing and goes on to `next()`. */
  lemma UnprefixedFallsThrough(config: Config, content: string)
    requires !(config.prefix <= content)
    ensures Respond(config, content) == Reaction([], true)
  {
  }

  /** At most one message is sent, and `next()` is reached exactly when no image was sent. */
  lemma NextIffNoImage(config: Config, content: string)
    ensures var r := Respond(config, content);
      |r.sent| <= 1 &&
      (r.callsNext <==> forall i :: 0 <= i < |r.sent| ==> !r.sent[i].ImageFile?)
  {
    var r := Respond(config, content);
    assert r.callsNext ==> r.sent == [] || r.sent == [Text(InvalidModelReply)] || r.sent == [Text(NotFoundReply)];
    assert !r.callsNext ==> |r.sent| == 1 && r.sent[0].ImageFile?;
  }

  /** A prefixed model that is empty or not purely ASCII letters and digits gets the invalid-model reply, then `next()`. */
  lemma InvalidModelRejected(config: Config, content: string)
    requires config.prefix <= content
    requires !IsProductModel(Trim(content[|config.prefix|..]))
    ensures Respond(config, content) == Reaction([Text(InvalidModelReply)], true)
  {
  }

  /** A valid model with types configured: one image, for the first type only, and no `next()`. */
  lemma ValidModelFirstTypeOnly(config: Config, pre: string, model: string, post: string)
    requires AllWhitespace(pre) && AllWhitespace(post) && IsProductModel(model)
    requires |config.imageTypes| > 0
    ensures var content := config.prefix + pre + model + post;
      Respond(config, content) ==
        Reaction([ImageFile(ProductImagePath(config.imageLibraryPath, config.imageTypes[0], model))], false)
  {
    var content := config.prefix + pre + model + post;
    assert content[|config.prefix|..] == pre + model + post;
    TrimUnique(pre, model, post);
  }

  /** A valid model with no types configured gets the not-found reply, then `next()`. */
  lemma NoTypesNotFound(config: Config, content: string)
    requires config.prefix <= content
    requires IsProductModel(Trim(content[|config.prefix|..]))
    requires config.imageTypes == []
    ensures Respond(config, content) == Reaction([Text(NotFoundReply)], true)
  {
  }
}
