/** The upload middleware: where each file field is stored, what the stored
    file is called, which extensions each filter admits and the size and
    count limits of the two upload configurations. */
module Upload {
  import opened Common
  import opened UserSchema
  import AgreementLifecycle

  /** The directory the applicant storage picks for a field. */
  function Destination(field: string): (dir: string)
    ensures dir in {"uploads/profiles", "uploads/portfolios", "uploads/signatures", "uploads/misc"}
    ensures field == "profilePicture" ==> dir == "uploads/profiles"
    ensures field == "portfolio" ==> dir == "uploads/portfolios"
    ensures field in SignatureFields ==> dir == "uploads/signatures"
    ensures dir == "uploads/misc" <==> field !in SignatureFields + {"profilePicture", "portfolio"}
  {
    if field == "profilePicture" then "uploads/profiles"
    else if field == "portfolio" then "uploads/portfolios"
    else if field == "partner1Signature" || field == "partner2Signature" || field == "officiantSignature" then
      "uploads/signatures"
    else "uploads/misc"
  }

  const SignatureFields: set<string> := {"partner1Signature", "partner2Signature", "officiantSignature"}
  const ImageFields: set<string> := SignatureFields + {"profilePicture"}
  const ImageExtensions: set<string> := {".jpg", ".jpeg", ".png", ".gif", ".webp"}

  /** The largest index of `c` in `s`, if any. */
  function LastIndexOf(s: string, c: char): (r: Option<nat>)
    ensures r.Some? ==> r.value < |s| && s[r.value] == c && c !in s[r.value + 1..]
    ensures r.None? ==> c !in s
  {
    if s == [] then None
    else if s[|s| - 1] == c then Some(|s| - 1)
    else
      var r := LastIndexOf(s[..|s| - 1], c);
      assert s == s[..|s| - 1] + [s[|s| - 1]];
      r
  }

  /** The extension of a file name (no directory part): from the last dot to
      the end, or "" when there is no dot, when the only dot starts the name,
      or for the name "..". */
  function Extname(name: string): (ext: string)
    ensures ext == "" || (ext[0] == '.' && '.' !in ext[1..])
    ensures |ext| <= |name| && ext == name[|name| - |ext|..]
  {
    match LastIndexOf(name, '.')
    case None => ""
    case Some(k) => if k == 0 || name == ".." then "" else name[k..]
  }

  /** A name has no extension exactly when no dot follows its first
      character, or when it is "..". */
  lemma ExtnameEmpty(name: string)
    ensures Extname(name) == "" <==> |name| <= 1 || '.' !in name[1..] || name == ".."
  {
    match LastIndexOf(name, '.')
    case None =>
    case Some(k) =>
      if k == 0 {
        assert name[1..] == name[k + 1..];
      } else {
        assert name[k] == name[1..][k - 1];
      }
  }

  /** The common image filter (also the one the profile upload uses). */
  predicate IsImageName(originalName: string)
  {
    Lower(Extname(originalName)) in ImageExtensions
  }

  predicate FileFilter(originalName: string)
  {
    IsImageName(originalName)
  }

  datatype Verdict = Accept | NotAnImage | NotAPdf | UnexpectedField

  /** The applicant filter: image fields need an image extension, the
      portfolio exactly ".pdf" (any letter case), every other field is refused. */
  function ApplicantFileFilter(field: string, originalName: string): (v: Verdict)
    ensures v == Accept <==>
              (field in ImageFields && IsImageName(originalName))
              || (field == "portfolio" && Lower(Extname(originalName)) == ".pdf")
    ensures v == UnexpectedField <==> field !in ImageFields && field != "portfolio"
  {
    if field in ImageFields then
      if IsImageName(originalName) then Accept else NotAnImage
    else if field == "portfolio" then
      if Lower(Extname(originalName)) == ".pdf" then Accept else NotAPdf
    else UnexpectedField
  }

  /** The stored name: the field name, "_", the unique suffix (time and a
      random number, supplied by the caller) and the original extension. */
  function StoredFilename(field: string, suffix: string, originalName: string): string
  {
    field + "_" + suffix + Extname(originalName)
  }

  /** The field a stored name was made for can be read back: it is what comes
      before the first "_" (field names carry no "_"). */
  function FieldOf(stored: string): string
  {
    if stored == [] || stored[0] == '_' then [] else [stored[0]] + FieldOf(stored[1..])
  }

  lemma {:induction false} FieldOfStoredFilename(field: string, suffix: string, originalName: string)
    requires '_' !in field
    ensures FieldOf(StoredFilename(field, suffix, originalName)) == field
    decreases |field|
  {
    var rest := "_" + suffix + Extname(originalName);
    assert StoredFilename(field, suffix, originalName) == field + rest;
    if field == [] {
      assert field + rest == rest;
    } else {
      assert (field + rest)[1..] == field[1..] + rest;
      assert StoredFilename(field[1..], suffix, originalName) == field[1..] + rest;
      FieldOfStoredFilename(field[1..], suffix, originalName);
    }
  }

  /** The stored name keeps the extension the filters judged. */
  lemma StoredFilenameKeepsExtension(field: string, suffix: string, originalName: string)
    requires '.' !in suffix && '.' !in field
    ensures Extname(StoredFilename(field, suffix, originalName)) == Extname(originalName)
  {
    var ext := Extname(originalName);
    var s := StoredFilename(field, suffix, originalName);
    var pre := field + "_" + suffix;
    assert s == pre + ext;
    assert '.' !in pre by {
      forall i | 0 <= i < |pre| ensures pre[i] != '.' {
        if i < |field| { assert pre[i] == field[i]; }
        else if i > |field| { assert pre[i] == suffix[i - |field| - 1]; }
      }
    }
    if ext == "" {
      assert s == pre;
      assert LastIndexOf(s, '.').None?;
    } else {
      var k := |pre|;
      assert s[k] == '.';
      assert s[k + 1..] == ext[1..];
      var j := LastIndexOf(s, '.');
      assert j.Some?;
      assert j.value == k && k > 0;
      assert pre[0] != '.';
      assert s[0] == pre[0];
      assert s[k..] == ext;
    }
  }

  /** Public address of a stored file, as the static file server exposes the uploads directory. */
  function PublicUrl(baseUrl: string, dir: string, stored: string): string
  {
    baseUrl + "/" + dir + "/" + stored
  }

  /** The file the static server sends for an address: everything after
      `baseUrl + "/"`, read as a path from the application root (the
      `/uploads` mount serves the `uploads` directory). */
  function ServedPath(baseUrl: string, url: string): (path: Option<string>)
    ensures path.Some? ==> url == baseUrl + "/" + path.value
  {
    var prefix := baseUrl + "/";
    if |prefix| <= |url| && url[..|prefix|] == prefix then Some(url[|prefix|..]) else None
  }

  /** The address of a stored file is served from where the storage put it. */
  lemma {:induction false} PublicUrlIsServed(baseUrl: string, dir: string, stored: string)
    ensures ServedPath(baseUrl, PublicUrl(baseUrl, dir, stored)) == Some(dir + "/" + stored)
  {
    var prefix := baseUrl + "/";
    var url := PublicUrl(baseUrl, dir, stored);
    assert url == prefix + (dir + "/" + stored);
    assert url[..|prefix|] == prefix;
    assert url[|prefix|..] == dir + "/" + stored;
  }

  /** The signature addresses the agreement handlers write are served from
      the directory the storage puts signature files in. */
  lemma SignatureUrlsAreServed(baseUrl: string, field: string, stored: string)
    requires field in SignatureFields
    ensures ServedPath(baseUrl, AgreementLifecycle.SignatureUrl(baseUrl, stored)) == Some(Destination(field) + "/" + stored)
  {
    assert AgreementLifecycle.SignatureUrl(baseUrl, stored) == PublicUrl(baseUrl, Destination(field), stored);
    PublicUrlIsServed(baseUrl, Destination(field), stored);
  }

  /** The two multer configurations. */
  datatype StorageKind = FlatStorage | ApplicantStorage
  datatype FilterKind = ImageFilter | ApplicantFilter
  datatype Config = Config(storage: StorageKind, filter: FilterKind, maxFileSize: nat, maxFiles: nat)

  const MiB: nat := 1024 * 1024

  /** The simple single-picture upload: 10 MiB, one file. */
  const ProfileUpload: Config := Config(FlatStorage, ImageFilter, 10 * MiB, 1)

  /** The applicant and signature upload: 1 MiB per file, three files. */
  const ApplicantUpload: Config := Config(ApplicantStorage, ApplicantFilter, 1 * MiB, 3)

  /** The module's default export, which every route importing the module without a name uses. */
  const DefaultUpload: Config := ApplicantUpload

  /** Whether `config` admits the `count`-th file of a request (1-based) of `size` bytes. */
  predicate Admits(config: Config, field: string, originalName: string, size: nat, count: nat)
  {
    && size <= config.maxFileSize
    && 1 <= count <= config.maxFiles
    && match config.filter
       case ImageFilter => FileFilter(originalName)
       case ApplicantFilter => ApplicantFileFilter(field, originalName) == Accept
  }

  /** Signature routes take the default export: a signature file over 1 MiB
      or a fourth file is refused whatever its name. */
  lemma SignatureRouteLimits(field: string, name: string, size: nat)
    ensures !Admits(DefaultUpload, field, name, MiB + 1, 1)
    ensures !Admits(DefaultUpload, field, name, size, 4)
    ensures !Admits(ProfileUpload, field, name, size, 2)
  {
  }

  /** An upper-case image extension passes, a PDF signature does not. */
  lemma SignatureFilterExamples(field: string)
    requires field in SignatureFields
    ensures Admits(DefaultUpload, field, "sig.PNG", MiB, 1)
    ensures !Admits(DefaultUpload, field, "sig.pdf", MiB, 1)
  {
    assert Extname("sig.PNG") == ".PNG" by {
      assert LastIndexOf("sig.PNG", '.') == Some(3);
    }
    assert Lower(".PNG") == ".png" by {
      assert Lower(".PNG")[1] == LowerChar('P');
    }
    assert Extname("sig.pdf") == ".pdf" by {
      assert LastIndexOf("sig.pdf", '.') == Some(3);
    }
    assert Lower(".pdf") == ".pdf";
  }
}
