/** The upload type dispatch of `extract_resume_text`, in both copies: the extension
    `os.path.splitext` cuts from the name, lower-cased, chooses the PDF or the DOCX
    extractor, and any other extension raises `ValueError`. The extractors themselves
    (PyPDF2, python-docx) are not modelled: the result names the extractor and what it
    is given. */
module ResumeParser {
  import opened Strings

  /** Python's `s.rfind(c)` for one character: the last position of `c`, or -1. */
  function LastIndex(s: string, c: char): (i: int)
    ensures -1 <= i < |s|
    ensures i >= 0 ==> s[i] == c
    ensures forall j :: i < j < |s| ==> s[j] != c
  {
    if |s| == 0 then -1
    else if s[|s| - 1] == c then |s| - 1
    else LastIndex(s[..|s| - 1], c)
  }

  /** The pair `os.path.splitext` returns. */
  datatype Split = Split(root: string, ext: string)

  /** `posixpath.splitext`: the extension starts at the last dot when that dot lies
      in the last path component and some character of the component before it is
      not a dot; otherwise there is no extension. */
  function SplitExt(p: string): (r: Split)
    ensures r.root + r.ext == p
    ensures r.ext == [] || r.ext[0] == '.'
  {
    var sepIndex := LastIndex(p, '/');
    var dotIndex := LastIndex(p, '.');
    if dotIndex > sepIndex && exists j :: sepIndex < j < dotIndex && p[j] != '.' then
      Split(p[..dotIndex], p[dotIndex..])
    else
      Split(p, [])
  }

  /** The reference reading of an extension: position `k` holds a dot, no dot or
      slash follows it, and the last path component has a character other than a dot
      before it. */
  predicate ExtensionAt(p: string, k: int) {
    && 0 <= k < |p|
    && p[k] == '.'
    && (forall i :: k < i < |p| ==> p[i] != '.' && p[i] != '/')
    && (exists j :: 0 <= j < k && p[j] != '.' && p[j] != '/' && forall i :: j < i < k ==> p[i] != '/')
  }

  /** `splitext` cuts exactly at the reference extension start, and leaves the name
      whole when there is none. */
  lemma SplitExtCharacterised(p: string)
    ensures forall k :: ExtensionAt(p, k) ==> SplitExt(p).ext == p[k..]
    ensures SplitExt(p).ext != [] ==> ExtensionAt(p, |SplitExt(p).root|)
    ensures SplitExt(p).ext == [] ==> SplitExt(p).root == p
  {
    var sepIndex := LastIndex(p, '/');
    var dotIndex := LastIndex(p, '.');
    forall k | ExtensionAt(p, k)
      ensures SplitExt(p).ext == p[k..]
    {
      assert k == dotIndex;
      var j :| 0 <= j < k && p[j] != '.' && p[j] != '/' && forall i :: j < i < k ==> p[i] != '/';
      assert sepIndex < j;
    }
    if SplitExt(p).ext != [] {
      var j :| sepIndex < j < dotIndex && p[j] != '.';
      assert p[j] != '/';
      assert forall i :: j < i < dotIndex ==> p[i] != '/';
    }
  }

  /** The lower-cased extension of a name. */
  function Extension(name: string): string {
    Lower(SplitExt(name).ext)
  }

  /** The extractor chosen and the value passed to it, or the `ValueError`. */
  datatype Parsed<T> = FromPdf(source: T) | FromDocx(source: T) | UnsupportedFileType

  /** Lines 18-24 of the upload variant and 17-23 of the path variant: the same
      dispatch, on whatever the extractor is handed. */
  function Dispatch<T>(source: T, name: string): (r: Parsed<T>)
    ensures r.FromPdf? <==> exists k :: ExtensionAt(name, k) && Lower(name[k..]) == ".pdf"
    ensures r.FromDocx? <==> exists k :: ExtensionAt(name, k) && Lower(name[k..]) == ".docx"
    ensures !r.UnsupportedFileType? ==> r.source == source
  {
    SplitExtCharacterised(name);
    var ext := Extension(name);
    if ext == ".pdf" then FromPdf(source)
    else if ext == ".docx" then FromDocx(source)
    else UnsupportedFileType
  }

  /** `extract_resume_text(contents, filename)` of the upload handler: the bytes go to
      the extractor the file name selects. */
  function ExtractResumeText(contents: seq<bv8>, filename: string): (r: Parsed<seq<bv8>>)
    ensures r.FromPdf? <==> exists k :: ExtensionAt(filename, k) && Lower(filename[k..]) == ".pdf"
    ensures r.FromDocx? <==> exists k :: ExtensionAt(filename, k) && Lower(filename[k..]) == ".docx"
    ensures !r.UnsupportedFileType? ==> r.source == contents
  {
    Dispatch(contents, filename)
  }

  /** `extract_resume_text(file_path)` of the path variant: the path goes to the
      extractor it selects. */
  function ExtractResumeTextAtPath(path: string): (r: Parsed<string>)
    ensures r.FromPdf? <==> exists k :: ExtensionAt(path, k) && Lower(path[k..]) == ".pdf"
    ensures r.FromDocx? <==> exists k :: ExtensionAt(path, k) && Lower(path[k..]) == ".docx"
    ensures !r.UnsupportedFileType? ==> r.source == path
  {
    Dispatch(path, path)
  }

  /** Lower-casing moves no dot and no slash. */
  lemma LowerKeepsSeparators(a: string, b: string, i: int)
    requires Lower(a) == Lower(b) && 0 <= i < |a|
    ensures a[i] == '.' <==> b[i] == '.'
    ensures a[i] == '/' <==> b[i] == '/'
  {
    assert Lower(a)[i] == LowerChar(a[i]);
    assert Lower(b)[i] == LowerChar(b[i]);
  }

  /** The dispatch ignores letter case: names equal up to case select the same
      extractor (".PDF" and ".DocX" are accepted). */
  lemma {:induction false} DispatchIgnoresCase<T>(source: T, a: string, b: string)
    requires Lower(a) == Lower(b)
    ensures Dispatch(source, a) == Dispatch(source, b)
  {
    assert |a| == |b|;
    forall k | 0 <= k < |a|
      ensures ExtensionAt(a, k) <==> ExtensionAt(b, k)
      ensures Lower(a[k..]) == Lower(b[k..])
    {
      forall i | 0 <= i < |a| {
        LowerKeepsSeparators(a, b, i);
      }
      assert forall i :: 0 <= i < |a| - k ==> Lower(a[k..])[i] == Lower(a)[k + i] == Lower(b)[k + i] == Lower(b[k..])[i];
    }
  }

  /** Only the last extension counts: a stem carrying a visible name before its own
      dots ("cv.docx") followed by an extension gives that extension. */
  lemma LastExtensionCounts(stem: string, ext: string)
    requires |ext| > 0 && ext[0] == '.'
    requires forall i :: 1 <= i < |ext| ==> ext[i] != '.' && ext[i] != '/'
    requires exists j :: 0 <= j < |stem| && stem[j] != '.' && stem[j] != '/' && forall i :: j < i < |stem| ==> stem[i] != '/'
    ensures Extension(stem + ext) == Lower(ext)
  {
    var p := stem + ext;
    var j :| 0 <= j < |stem| && stem[j] != '.' && stem[j] != '/' && forall i :: j < i < |stem| ==> stem[i] != '/';
    assert p[j] == stem[j];
    assert ExtensionAt(p, |stem|);
    SplitExtCharacterised(p);
    assert p[|stem|..] == ext;
  }

  /** A name with no dot in its last path component ("resume", "v1.pdf/resume") has
      no extension and is refused. */
  lemma NoDotInLastComponentRefused<T>(source: T, name: string)
    requires forall k :: 0 <= k < |name| && name[k] == '.' ==> exists i :: k < i < |name| && name[i] == '/'
    ensures Dispatch(source, name) == UnsupportedFileType
  {
    SplitExtCharacterised(name);
    forall k | 0 <= k < |name| && name[k] == '.'
      ensures !ExtensionAt(name, k)
    {
      var i :| k < i < |name| && name[i] == '/';
    }
  }

  /** A name made of dots and an extension only (".pdf") is a hidden file with no
      extension, and is refused. */
  lemma HiddenFileRefused<T>(source: T, dots: nat, ext: string)
    requires dots > 0
    requires forall i :: 0 <= i < |ext| ==> ext[i] != '.' && ext[i] != '/'
    ensures Dispatch(source, seq(dots, _ => '.') + ext) == UnsupportedFileType
  {
    var name := seq(dots, _ => '.') + ext;
    assert forall i :: 0 <= i < dots ==> name[i] == '.';
    assert forall i :: dots <= i < |name| ==> name[i] == ext[i - dots];
    SplitExtCharacterised(name);
    forall k | 0 <= k < |name| && name[k] == '.'
      ensures k < dots
    {
    }
  }
}
