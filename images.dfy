/**
 * The image acceptance rule of the profile update: which file name the row
 * keeps, which uploads are refused with 422, and where an accepted upload is
 * moved.
 */
module Images {
  import opened Wrappers
  import opened JsText
  import opened NodePath

  /** `req.files.image`: the client's file name, its size in bytes, and the MD5
    * digest the upload middleware computed. */
  datatype Upload = Upload(name: string, size: int, md5: string)

  datatype ImageError = InvalidType | TooLarge

  /** Refused, or accepted with the name to store and, for an upload, the path
    * the file is moved to. */
  datatype ImageDecision =
    | Rejected(error: ImageError)
    | Accepted(fileName: string, moveTo: Option<string>)

  const DefaultImage := "default.png"
  const ImagesDir := "./public/images/"
  const MaxImageSize := 5000000

  /** `image || "default.png"`: a null or empty name falls back to the default. */
  function ImageOrDefault(image: Option<string>): (name: string)
    ensures name != []
    ensures image.Some? && image.value != [] ==> name == image.value
    ensures image.None? || image.value == [] ==> name == DefaultImage
  {
    if image.Some? && image.value != [] then image.value else DefaultImage
  }

  /** `user.image && user.image !== "default.png"`: the row names a file of its own. */
  predicate HasOwnImage(image: Option<string>)
  {
    image.Some? && image.value != [] && image.value != DefaultImage
  }

  /** The allow-list `[".png", ".jpg", ".jpeg"]`. */
  predicate AllowedExtension(ext: string)
  {
    ext == ".png" || ext == ".jpg" || ext == ".jpeg"
  }

  /** The type test looks at the lower-cased extension of the client's file name. */
  predicate AllowedType(fileName: string)
  {
    AllowedExtension(LowerAscii(Extname(fileName)))
  }

  /** Without an upload the current image (or the default) stays. With one, the
    * type is tested first and the size second; an accepted upload is stored as
    * its MD5 followed by its extension as the client spelled it. */
  function ImageRule(current: Option<string>, upload: Option<Upload>): (d: ImageDecision)
    ensures upload.None? ==> d == Accepted(ImageOrDefault(current), None)
    ensures d == Rejected(InvalidType) <==> upload.Some? && !AllowedType(upload.value.name)
    ensures d == Rejected(TooLarge) <==>
      upload.Some? && AllowedType(upload.value.name) && upload.value.size > MaxImageSize
    ensures upload.Some? && upload.value.size > MaxImageSize ==> d.Rejected?
    ensures upload.Some? && d.Accepted? ==>
      && d.fileName == upload.value.md5 + Extname(upload.value.name)
      && d.moveTo == Some(ImagesDir + d.fileName)
      && upload.value.size <= MaxImageSize
  {
    match upload
    case None => Accepted(ImageOrDefault(current), None)
    case Some(file) =>
      var ext := Extname(file.name);
      var fileName := file.md5 + ext;
      if !AllowedExtension(LowerAscii(ext)) then Rejected(InvalidType)
      else if file.size > MaxImageSize then Rejected(TooLarge)
      else Accepted(fileName, Some(ImagesDir + fileName))
  }

  /** An accepted upload keeps an allowed extension in the stored name, so the
    * name is never the bare digest. */
  lemma AcceptedNameHasAllowedExtension(current: Option<string>, file: Upload)
    requires AllowedType(file.name) && file.size <= MaxImageSize
    ensures ImageRule(current, Some(file)).Accepted?
    ensures var name := ImageRule(current, Some(file)).fileName;
      |name| > |file.md5| && AllowedExtension(LowerAscii(name[|file.md5|..]))
  {
    var d := ImageRule(current, Some(file));
    assert d != Rejected(InvalidType) && d != Rejected(TooLarge);
    assert d.fileName[|file.md5|..] == Extname(file.name);
  }

  lemma LowerPng()
    ensures LowerAscii(".PNG") == ".png"
  {
    assert LowerChar('P') == 'p' && LowerChar('N') == 'n' && LowerChar('G') == 'g';
    var lower := LowerAscii(".PNG");
    assert |lower| == 4;
    assert lower[0] == '.' && lower[1] == 'p' && lower[2] == 'n' && lower[3] == 'g';
  }

  lemma PngExtension(dir: string, stem: string)
    requires dir == [] || dir[|dir| - 1] == '/'
    requires stem != [] && '/' !in stem
    ensures Extname(dir + (stem + ".PNG")) == ".PNG"
    ensures AllowedType(dir + (stem + ".PNG"))
  {
    ExtnameOf(dir, stem, ".PNG");
    LowerPng();
  }

  /** An upload whose name ends in `.PNG` in any directory is accepted when small
    * enough, and stored under its digest with the upper-case extension kept. */
  lemma UpperCasePngAccepted(dir: string, stem: string, size: int, md5: string)
    requires dir == [] || dir[|dir| - 1] == '/'
    requires stem != [] && '/' !in stem
    requires size <= MaxImageSize
    ensures ImageRule(None, Some(Upload(dir + (stem + ".PNG"), size, md5)))
         == Accepted(md5 + ".PNG", Some(ImagesDir + (md5 + ".PNG")))
  {
    var name := dir + (stem + ".PNG");
    PngExtension(dir, stem);
    var d := ImageRule(None, Some(Upload(name, size, md5)));
    assert d != Rejected(InvalidType) && d != Rejected(TooLarge);
    assert d.Accepted?;
  }

  lemma DotfileHasNoExtension()
    ensures Extname(".png") == []
  {
    var name := ".png";
    assert TrimTrailingSlashes(name) == name;
    BasenameAfterDir([], name);
    assert [] + name == name;
    LastIndexBefore([], '.', "png");
    assert [] + ['.'] + "png" == name;
  }

  /** A file called `.png` has no extension in Node's sense, so it is refused. */
  lemma DotfileRefused(size: int, md5: string)
    ensures ImageRule(None, Some(Upload(".png", size, md5))) == Rejected(InvalidType)
  {
    DotfileHasNoExtension();
    assert LowerAscii([]) == [];
    assert !AllowedType(".png");
  }
}
