/** Upload validation: the extension check `allowed_file` (main.py:183-186) and the three
    rejections of the `upload` handler before any external service is called (main.py:194-201,
    main.py:214-216). */
module FileGate {
  import opened Strings

  const AllowedExtensions: set<string> := {"png", "jpg", "jpeg"}

  const NoFilePartMessage := "No file part"
  const NoSelectedFileMessage := "No selected file"
  const NotAllowedMessage := "File type not allowed. Please upload a PNG/JPG/JPEG."

  /** `s.rsplit(".", 1)[1]`: the text after the last dot. It holds no dot, and the dot just
      before it is in `s`. */
  function AfterLastDot(s: string): (r: string)
    requires '.' in s
    ensures |r| < |s| && s[|s| - |r| - 1] == '.' && r == s[|s| - |r|..]
    ensures '.' !in r
  {
    var n := |s| - 1;
    if s[n] == '.' then []
    else
      assert '.' in s[..n] by {
        var k :| 0 <= k < |s| && s[k] == '.';
        assert s[..n][k] == '.';
      }
      var r := AfterLastDot(s[..n]);
      assert s[n - |r| - 1] == s[..n][n - |r| - 1];
      assert r + [s[n]] == s[n - |r|..];
      r + [s[n]]
  }

  /** `allowed_file`: the name has a dot and the lower-cased text after its last dot is one
      of the allowed extensions. */
  function AllowedFile(filename: string): (ok: bool)
    ensures ok ==> filename != [] && '.' in filename
  {
    '.' in filename && Lower(AfterLastDot(filename)) in AllowedExtensions
  }

  /** `i` is the position of the last dot of `s`. */
  predicate LastDotAt(s: string, i: int) {
    0 <= i < |s| && s[i] == '.' && '.' !in s[i + 1..]
  }

  /** Only one position can be the last dot. */
  lemma LastDotUnique(s: string, i: int, j: int)
    requires LastDotAt(s, i) && LastDotAt(s, j)
    ensures i == j
  {
  }

  /** `allowed_file` holds exactly when some position is the last dot and the lower-cased text
      after it is `png`, `jpg` or `jpeg`. */
  lemma AllowedFileIff(filename: string)
    ensures AllowedFile(filename) <==>
      exists i :: LastDotAt(filename, i) && Lower(filename[i + 1..]) in AllowedExtensions
  {
    if '.' in filename {
      var r := AfterLastDot(filename);
      var at := |filename| - |r| - 1;
      assert filename[at + 1..] == r;
      assert LastDotAt(filename, at);
      forall i | LastDotAt(filename, i) ensures filename[i + 1..] == r {
        LastDotUnique(filename, i, at);
      }
    } else {
      forall i | 0 <= i < |filename| ensures filename[i] != '.' {
        assert filename[i] in filename;
      }
    }
  }

  /** The extension test is case-insensitive: an extension passes exactly when it spells
      `png`, `jpg` or `jpeg` with any mix of upper- and lower-case letters. */
  lemma ExtensionCaseInsensitive(ext: string)
    ensures Lower(ext) in AllowedExtensions <==>
      CaseVariant(ext, "png") || CaseVariant(ext, "jpg") || CaseVariant(ext, "jpeg")
  {
    assert LowerWord("png") && LowerWord("jpg") && LowerWord("jpeg");
    LowerToWord(ext, "png");
    LowerToWord(ext, "jpg");
    LowerToWord(ext, "jpeg");
  }

  /** Example names: `photo.gif` and a bare `png` are refused, and
      only the last extension counts, in any case (`a.b.JPG` passes, `photo.png.exe` does not).
      A name that is only an extension, `.png`, passes too; `photo.` does not. */
  lemma GifRefused()
    ensures !AllowedFile("photo.gif")
  {
  }

  lemma BareExtensionRefused()
    ensures !AllowedFile("png")
  {
  }

  lemma LastExtensionAnyCaseAccepted()
    ensures AllowedFile("a.b.JPG")
  {
    assert AfterLastDot("a.b.JPG") == "JPG";
    assert Lower("JPG") == "jpg";
  }

  lemma PhotoJpgAccepted()
    ensures CheckUpload(Part("photo.jpg")) == RunPipeline("photo.jpg")
  {
    assert AfterLastDot("photo.jpg") == "jpg";
    assert Lower("jpg") == "jpg";
  }

  lemma InnerExtensionIgnored()
    ensures !AllowedFile("photo.png.exe")
  {
  }

  lemma DotFileAccepted()
    ensures AllowedFile(".png")
  {
    assert AfterLastDot(".png") == "png";
    assert Lower("png") == "png";
  }

  lemma EmptyExtensionRefused()
    ensures !AllowedFile("photo.")
  {
  }

  /** The multipart field `image` of the request: absent, or a file part with its filename. */
  datatype FilePart = NoFilePart | Part(filename: string)

  /** What the handler does with the request: redirect back with a flashed message, or save
      the file and run the pipeline. */
  datatype Decision = Reject(message: string) | RunPipeline(filename: string)

  /** The validation branches of `upload`: a missing part, an empty filename and a disallowed
      filename are each rejected with their own message; the pipeline runs exactly when the
      part is there and its name passes `allowed_file`, so an empty or refused name never
      reaches it. */
  function CheckUpload(part: FilePart): (d: Decision)
    ensures d.RunPipeline? <==> part.Part? && AllowedFile(part.filename)
    ensures d.RunPipeline? ==> d.filename == part.filename && d.filename != ""
    ensures part.NoFilePart? ==> d == Reject(NoFilePartMessage)
    ensures part.Part? && part.filename == "" ==> d == Reject(NoSelectedFileMessage)
    ensures part.Part? && part.filename != "" && !AllowedFile(part.filename) ==> d == Reject(NotAllowedMessage)
  {
    match part
    case NoFilePart => Reject(NoFilePartMessage)
    case Part(name) =>
      if name == "" then Reject(NoSelectedFileMessage)
      else if AllowedFile(name) then RunPipeline(name)
      else Reject(NotAllowedMessage)
  }
}
