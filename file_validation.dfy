/**
 * `FileValidationService` (app/services/file_validation.py): the upload
 * pipeline that checks the extension, then the size, then the leading
 * magic bytes, and finally produces a storage-safe file name.
 *
 * The upload is a `FileStream` whose position the size and content checks
 * move and restore. werkzeug's `secure_filename` is library code and is a
 * function parameter `secure`.
 */
module FileValidation {
  import opened Wrappers
  import opened Text

  newtype byte = x: int | 0 <= x < 256

  const PdfType: string := "application/pdf"
  const DocxType: string := "application/vnd.openxmlformats-officedocument.wordprocessingml.document"
  const PdfExt: string := ".pdf"
  const DocxExt: string := ".docx"

  /** `MAX_FILE_SIZE`: 16 MiB. */
  const MaxFileSize: nat := 16 * 1024 * 1024

  /** `b'%PDF'` and `b'PK'` (the ZIP signature a DOCX starts with). */
  const PdfMagic: seq<byte> := [0x25, 0x50, 0x44, 0x46]
  const ZipMagic: seq<byte> := [0x50, 0x4B]

  /** The name used when nothing usable is left of the upload's name. */
  const Unnamed: string := "unnamed_file"

  /** The longest stored file name. */
  const MaxNameLength: nat := 255

  /** The error codes of the pipeline's failure results. */
  datatype Failure =
    | InvalidExtension
    | FileTooLarge(fileSize: nat, maxSize: nat)
    | UnsupportedType
    | InvalidPdf
    | InvalidDocx

  /** The success result of `validate_file`. */
  datatype Accepted = Accepted(fileSize: nat, contentType: string, safeFilename: string, originalFilename: string)

  // ---------------------------------------------------------------------
  // Extension whitelist

  /** `ALLOWED_EXTENSIONS.get(ext)` */
  function MimeOf(ext: string): Option<string> {
    if ext == PdfExt then Some(PdfType)
    else if ext == DocxExt then Some(DocxType)
    else None
  }

  /** `is_allowed_file`: a non-empty name whose lowercased extension is whitelisted. */
  predicate IsAllowedFile(filename: string) {
    filename != [] && MimeOf(Ext(Lower(filename))).Some?
  }

  /** `get_content_type`: the MIME type of a whitelisted name, otherwise `None`. */
  function ContentType(filename: string): (r: Option<string>)
    ensures r.None? <==> !IsAllowedFile(filename)
    ensures r.Some? ==> r.value == PdfType || r.value == DocxType
  {
    if filename == [] then None else MimeOf(Ext(Lower(filename)))
  }

  /**
   * Only '.pdf' and '.docx' are accepted, whatever the letter case, each
   * with its own MIME type; an allowed name ends with its extension.
   */
  lemma AllowedExtensions(filename: string)
    ensures IsAllowedFile(filename) <==> filename != [] && (Ext(Lower(filename)) == PdfExt || Ext(Lower(filename)) == DocxExt)
    ensures ContentType(filename) == Some(PdfType) <==> filename != [] && Ext(Lower(filename)) == PdfExt
    ensures ContentType(filename) == Some(DocxType) <==> filename != [] && Ext(Lower(filename)) == DocxExt
    ensures IsAllowedFile(filename) ==> EndsWith(Lower(filename), Ext(Lower(filename)))
  {
    assert PdfType != DocxType by {
      assert |PdfType| != |DocxType|;
    }
    var p := SplitExt(Lower(filename));
    assert p.0 + p.1 == Lower(filename);
    assert (p.0 + p.1)[|p.0|..] == p.1;
  }

  // ---------------------------------------------------------------------
  // The upload stream

  /** An uploaded file: fixed contents and a read position (`tell`/`seek`/`read`). */
  class FileStream {
    const data: seq<byte>
    var pos: nat

    constructor (data: seq<byte>, pos: nat)
      ensures this.data == data && this.pos == pos
    {
      this.data := data;
      this.pos := pos;
    }

    method Tell() returns (p: nat)
      ensures p == pos
    {
      p := pos;
    }

    method Seek(p: nat)
      modifies this
      ensures pos == p
    {
      pos := p;
    }

    /** `seek(0, 2)` */
    method SeekEnd()
      modifies this
      ensures pos == |data|
    {
      pos := |data|;
    }

    /** `read(n)`: at most `n` bytes from the position, which moves past them. */
    method Read(n: nat) returns (chunk: seq<byte>)
      modifies this
      ensures old(pos) <= |data| ==> chunk == data[old(pos)..Min(old(pos) + n, |data|)]
      ensures old(pos) > |data| ==> chunk == []
      ensures pos == old(pos) + |chunk|
    {
      if pos >= |data| {
        chunk := [];
      } else {
        chunk := data[pos..Min(pos + n, |data|)];
        pos := pos + |chunk|;
      }
    }
  }

  function Min(a: int, b: int): int { if a < b then a else b }

  /** The first eight bytes: what `seek(0); read(8)` returns. */
  function Header(data: seq<byte>): (h: seq<byte>)
    ensures |h| == Min(8, |data|) && h == data[..|h|]
  {
    data[..Min(8, |data|)]
  }

  predicate HasPrefix(s: seq<byte>, prefix: seq<byte>) {
    |prefix| <= |s| && s[..|prefix|] == prefix
  }

  // ---------------------------------------------------------------------
  // Size and content checks

  /** The outcome of `validate_file_size` for a file of `size` bytes. */
  function SizeCheck(size: nat): (r: Result<nat, Failure>)
    ensures r.Ok? <==> size <= MaxFileSize
    ensures r.Ok? ==> r.value == size
    ensures r.Err? ==> r.error == FileTooLarge(size, MaxFileSize)
  {
    if size > MaxFileSize then Err(FileTooLarge(size, MaxFileSize)) else Ok(size)
  }

  /** `validate_file_size`: the file's length against 16 MiB; the read position is restored. */
  method ValidateFileSize(stream: FileStream) returns (r: Result<nat, Failure>)
    modifies stream
    ensures stream.pos == old(stream.pos)
    ensures r == SizeCheck(|stream.data|)
  {
    var current := stream.Tell();
    stream.SeekEnd();
    var size := stream.Tell();
    stream.Seek(current);
    if size > MaxFileSize {
      return Err(FileTooLarge(size, MaxFileSize));
    }
    return Ok(size);
  }

  /** The outcome of `validate_file_content` for a name and the file's first bytes. */
  function ContentCheck(header: seq<byte>, filename: string): (r: Result<string, Failure>)
  {
    match ContentType(filename)
    case None => Err(UnsupportedType)
    case Some(t) =>
      if t == PdfType && !HasPrefix(header, PdfMagic) then Err(InvalidPdf)
      else if t == DocxType && !HasPrefix(header, ZipMagic) then Err(InvalidDocx)
      else Ok(t)
  }

  /**
   * The content check accepts exactly a whitelisted name whose file starts
   * with the signature of its type, and then yields the type's MIME type.
   */
  lemma ContentCheckSpec(header: seq<byte>, filename: string)
    ensures ContentCheck(header, filename).Ok? <==>
      IsAllowedFile(filename)
      && (ContentType(filename) == Some(PdfType) ==> HasPrefix(header, PdfMagic))
      && (ContentType(filename) == Some(DocxType) ==> HasPrefix(header, ZipMagic))
    ensures ContentCheck(header, filename).Ok? ==> Some(ContentCheck(header, filename).value) == ContentType(filename)
    ensures ContentType(filename) == Some(PdfType) && !HasPrefix(header, PdfMagic) ==> ContentCheck(header, filename) == Err(InvalidPdf)
    ensures ContentType(filename) == Some(DocxType) && !HasPrefix(header, ZipMagic) ==> ContentCheck(header, filename) == Err(InvalidDocx)
  {
    assert PdfType != DocxType by {
      assert |PdfType| != |DocxType|;
    }
  }

  /** `validate_file_content`: the first 8 bytes against the signature; the read position is restored. */
  method ValidateFileContent(stream: FileStream, filename: string) returns (r: Result<string, Failure>)
    modifies stream
    ensures stream.pos == old(stream.pos)
    ensures r == ContentCheck(Header(stream.data), filename)
  {
    var current := stream.Tell();
    stream.Seek(0);
    var header := stream.Read(8);
    stream.Seek(current);
    var expected := ContentType(filename);
    if expected.None? {
      return Err(UnsupportedType);
    }
    if expected.value == PdfType {
      if !HasPrefix(header, PdfMagic) {
        return Err(InvalidPdf);
      }
    } else if expected.value == DocxType {
      if !HasPrefix(header, ZipMagic) {
        return Err(InvalidDocx);
      }
    }
    return Ok(expected.value);
  }

  // ---------------------------------------------------------------------
  // File names

  /** Python's `s[:k]`, where a negative `k` counts from the end. */
  function SliceTo(s: string, k: int): (r: string)
    ensures |r| <= |s| && r == s[..|r|]
    ensures 0 <= k <= |s| ==> |r| == k
    ensures k < 0 ==> |r| == if |s| + k < 0 then 0 else |s| + k
  {
    if k >= 0 then s[..Min(k, |s|)]
    else if |s| + k < 0 then []
    else s[..|s| + k]
  }

  /** The name `sanitize_filename` starts from, before the length cap. */
  function SafeBase(filename: string, secure: string -> string): (r: string)
    ensures r != []
  {
    assert |Unnamed| == 12;
    if filename == [] then Unnamed
    else
      var safe := secure(filename);
      if safe != [] then safe else Unnamed + Lower(Ext(filename))
  }

  /**
   * `sanitize_filename` as written: an over-long name is cut to
   * `255 - len(ext)` characters before its extension is put back.
   */
  function SanitizeAsWritten(filename: string, secure: string -> string): string {
    var safe := SafeBase(filename, secure);
    if |safe| > MaxNameLength then
      var (name, ext) := SplitExt(safe);
      SliceTo(name, MaxNameLength - |ext|) + ext
    else safe
  }

  /**
   * An extension of more than 255 characters makes the cut count negative,
   * so the slice counts from the end and the over-long extension survives:
   * for "a." followed by 300 letters, which `secure_filename` keeps as it
   * is, the result is still 301 characters long.
   */
  lemma SanitizeAsWrittenTooLong(secure: string -> string)
    requires secure(LongExtName()) == LongExtName()
    ensures |SanitizeAsWritten(LongExtName(), secure)| == 301 > MaxNameLength
  {
    var s := LongExtName();
    assert s[0] == 'a' && s[1] == '.';
    assert forall i :: 2 <= i < |s| ==> s[i] == 'x';
    var dot := RFind(s, '.');
    var sep := RFind(s, '/');
    assert forall i :: 0 <= i < |s| ==> s[i] != '/';
    assert sep == -1;
    assert forall i :: 1 < i < |s| ==> s[i] != '.';
    assert dot == 1;
    assert s[0] != '.';
    var p := SplitExt(s);
    assert p == (s[..1], s[1..]);
    assert |p.1| == 301;
  }

  /** "a." followed by 300 'x': a name whose extension alone is over the cap. */
  function LongExtName(): (s: string)
    ensures |s| == 302
  {
    "a." + seq(300, _ => 'x')
  }

  /**
   * `sanitize_filename` with the cap it evidently intends: the name part is
   * shortened so that name and extension fit in 255 characters, and when
   * the extension alone does not fit the whole name is cut to 255.
   */
  function Sanitize(filename: string, secure: string -> string): (r: string)
    ensures r != [] && |r| <= MaxNameLength
    ensures filename == [] ==> r == Unnamed
  {
    var safe := SafeBase(filename, secure);
    if |safe| > MaxNameLength then
      var (name, ext) := SplitExt(safe);
      if |ext| <= MaxNameLength then
        var cut := SliceTo(name, MaxNameLength - |ext|);
        assert |cut| == MaxNameLength - |ext| by {
          assert |name| + |ext| == |safe|;
        }
        if cut + ext == [] then assert false; Unnamed else cut + ext
      else safe[..MaxNameLength]
    else safe
  }

  /**
   * A name within the cap is kept as `secure_filename` produced it; a longer
   * one keeps its extension and the start of its name; and wherever the
   * extension fits, the corrected function agrees with the code as written.
   */
  lemma SanitizeSpec(filename: string, secure: string -> string)
    ensures var safe := SafeBase(filename, secure);
      && (|safe| <= MaxNameLength ==> Sanitize(filename, secure) == safe)
      && (|safe| > MaxNameLength && |SplitExt(safe).1| <= MaxNameLength ==>
            && |Sanitize(filename, secure)| == MaxNameLength
            && EndsWith(Sanitize(filename, secure), SplitExt(safe).1)
            && StartsWith(safe, Sanitize(filename, secure)[..MaxNameLength - |SplitExt(safe).1|]))
      && (|SplitExt(safe).1| <= MaxNameLength ==> Sanitize(filename, secure) == SanitizeAsWritten(filename, secure))
  {
    var safe := SafeBase(filename, secure);
    if |safe| > MaxNameLength {
      var (name, ext) := SplitExt(safe);
      if |ext| <= MaxNameLength {
        var cut := SliceTo(name, MaxNameLength - |ext|);
        var r := cut + ext;
        assert r[..|cut|] == cut;
        assert r[|r| - |ext|..] == ext;
        assert safe == name + ext;
        assert safe[..|cut|] == name[..|cut|];
      }
    }
  }

  // ---------------------------------------------------------------------
  // The whole pipeline

  /** What `validate_file` returns for a name, a file and `secure_filename`, with the corrected sanitiser. */
  function ValidateSpec(filename: string, data: seq<byte>, secure: string -> string): Result<Accepted, Failure> {
    if !IsAllowedFile(filename) then Err(InvalidExtension)
    else match SizeCheck(|data|)
      case Err(e) => Err(e)
      case Ok(size) =>
        match ContentCheck(Header(data), filename)
        case Err(e) => Err(e)
        case Ok(t) => Ok(Accepted(size, t, Sanitize(filename, secure), filename))
  }

  /**
   * The checks run in order and the first failure is returned: the
   * extension, then the size, then the signature; an accepted upload is
   * whitelisted, within 16 MiB, starts with its signature, and carries its
   * size, MIME type, safe name and original name. The safe name comes from
   * the corrected sanitiser; it is the name the code as written gives
   * whenever `secure_filename` leaves an extension of at most 255
   * characters.
   */
  lemma ValidateOrder(filename: string, data: seq<byte>, secure: string -> string)
    ensures !IsAllowedFile(filename) ==> ValidateSpec(filename, data, secure) == Err(InvalidExtension)
    ensures IsAllowedFile(filename) && |data| > MaxFileSize ==>
      ValidateSpec(filename, data, secure) == Err(FileTooLarge(|data|, MaxFileSize))
    ensures IsAllowedFile(filename) && |data| <= MaxFileSize && ContentCheck(Header(data), filename).Err? ==>
      ValidateSpec(filename, data, secure) == Err(ContentCheck(Header(data), filename).error)
    ensures ValidateSpec(filename, data, secure).Ok? <==>
      IsAllowedFile(filename) && |data| <= MaxFileSize && ContentCheck(Header(data), filename).Ok?
    ensures ValidateSpec(filename, data, secure).Ok? ==>
      var a := ValidateSpec(filename, data, secure).value;
      && a.fileSize == |data|
      && Some(a.contentType) == ContentType(filename)
      && a.safeFilename == Sanitize(filename, secure) && |a.safeFilename| <= MaxNameLength
      && a.originalFilename == filename
      && (|SplitExt(SafeBase(filename, secure)).1| <= MaxNameLength ==>
            a.safeFilename == SanitizeAsWritten(filename, secure))
  {
    if ValidateSpec(filename, data, secure).Ok? {
      ContentCheckSpec(Header(data), filename);
      SanitizeSpec(filename, secure);
    }
  }

  /** `validate_file`: the three checks in order, then the safe name; the read position is restored. */
  method ValidateFile(stream: FileStream, filename: string, secure: string -> string) returns (r: Result<Accepted, Failure>)
    modifies stream
    ensures stream.pos == old(stream.pos)
    ensures r == ValidateSpec(filename, stream.data, secure)
  {
    if !IsAllowedFile(filename) {
      return Err(InvalidExtension);
    }
    var sizeResult := ValidateFileSize(stream);
    if sizeResult.Err? {
      return Err(sizeResult.error);
    }
    var contentResult := ValidateFileContent(stream, filename);
    if contentResult.Err? {
      return Err(contentResult.error);
    }
    var safe := Sanitize(filename, secure);
    return Ok(Accepted(sizeResult.value, contentResult.value, safe, filename));
  }

  // ---------------------------------------------------------------------
  // Size display

  function Pow1024(i: nat): (p: real)
    ensures p >= 1.0
  {
    if i == 0 then 1.0 else 1024.0 * Pow1024(i - 1)
  }

  /** The units `_format_file_size` can print. */
  const SizeUnits: seq<string> := ["B", "KB", "MB", "GB"]

  /** The number `_format_file_size` prints (before one-decimal rounding) and the index of its unit. */
  datatype FormattedSize = ZeroBytes | Amount(value: real, unit: nat)

  /**
   * `_format_file_size`: sizes are divided by 1024 while they are at least
   * 1024 and a larger unit remains, so the unit never passes GB.
   */
  method FormatFileSize(size: real) returns (r: FormattedSize)
    ensures r == ZeroBytes <==> size == 0.0
    ensures r.Amount? ==> r.unit < |SizeUnits| && r.value * Pow1024(r.unit) == size
    ensures r.Amount? && r.unit < |SizeUnits| - 1 ==> r.value < 1024.0
    ensures r.Amount? && r.unit > 0 ==> r.value >= 1.0
  {
    if size == 0.0 {
      return ZeroBytes;
    }
    var value := size;
    var i := 0;
    while value >= 1024.0 && i < |SizeUnits| - 1
      invariant 0 <= i < |SizeUnits|
      invariant value * Pow1024(i) == size
      invariant i > 0 ==> value >= 1.0
    {
      value := value / 1024.0;
      i := i + 1;
    }
    return Amount(value, i);
  }
}
