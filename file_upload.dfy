/**
 * Uploading files into the chat context (routes/file.py). Every uploaded
 * file becomes an entry `# File: <name>\n<text>\n#EOF:<name>\n`. Text files
 * are decoded in upload order; PDF files are saved to a fresh directory and
 * afterwards converted to markdown in directory-listing order, each entry
 * named after the file up to its first `.` plus `.md`. The context is the
 * entries joined by a blank line; a failure stops the processing but keeps
 * the entries collected so far.
 */
module FileUpload {
  import opened Wrappers
  import opened Text

  type Byte = bv8

  const HEADER: string := "# File: "
  const TRAILER: string := "\n#EOF:"
  const PDF_SUFFIX: string := ".pdf"
  const MD_SUFFIX: string := ".md"
  const SEPARATOR: string := "\n\n"

  /** The entry `upload_file` and `upload_string` append. */
  function Entry(name: string, text: string): string
  {
    HEADER + name + "\n" + text + TRAILER + name + "\n"
  }

  /** The first position of `c` in `s`. */
  function IndexOf(s: string, c: char): (r: Option<nat>)
    ensures r.Some? ==> r.value < |s| && s[r.value] == c && c !in s[..r.value]
    ensures r.None? ==> c !in s
  {
    if s == [] then None
    else if s[0] == c then Some(0)
    else
      var r := IndexOf(s[1..], c);
      if r.Some? then
        assert s[..r.value + 1] == [s[0]] + s[1..][..r.value];
        Some(r.value + 1)
      else None
  }

  lemma IndexOfFirst(a: string, c: char, b: string)
    requires c !in a
    ensures IndexOf(a + [c] + b, c) == Some(|a|)
  {
    var s := a + [c] + b;
    var r := IndexOf(s, c);
    assert s[|a|] == c;
    assert forall k :: |a| < k <= |s| ==> s[..k][|a|] == c;
  }

  /** Recover the name and the text from an entry, if it is one. */
  function ParseEntry(s: string): Option<(string, string)>
  {
    if !StartsWith(s, HEADER) then None
    else
      var body := s[|HEADER|..];
      match IndexOf(body, '\n')
      case None => None
      case Some(k) =>
        var name := body[..k];
        var rest := body[k + 1..];
        var tail := TRAILER + name + "\n";
        if EndsWith(rest, tail) then Some((name, rest[..|rest| - |tail|])) else None
  }

  /** An entry gives back its name and text, for a name on a single line. */
  lemma EntryRoundTrip(name: string, text: string)
    requires '\n' !in name
    ensures ParseEntry(Entry(name, text)) == Some((name, text))
  {
    var s := Entry(name, text);
    var tail := TRAILER + name + "\n";
    var rest := text + tail;
    assert s == HEADER + (name + ['\n'] + rest);
    assert StartsWith(s, HEADER);
    var body := s[|HEADER|..];
    assert body == name + ['\n'] + rest;
    IndexOfFirst(name, '\n', rest);
    assert body[..|name|] == name && body[|name| + 1..] == rest;
    assert rest[|rest| - |tail|..] == tail && rest[..|rest| - |tail|] == text;
  }

  /** Entries are told apart by their name and text. */
  lemma EntryInjective(n1: string, t1: string, n2: string, t2: string)
    requires '\n' !in n1 && '\n' !in n2
    requires Entry(n1, t1) == Entry(n2, t2)
    ensures n1 == n2 && t1 == t2
  {
    EntryRoundTrip(n1, t1);
    EntryRoundTrip(n2, t2);
  }

  /** `f"{file.split('.')[0]}.md"` */
  function MdName(filename: string): string
  {
    Split(filename, '.')[0] + MD_SUFFIX
  }

  /** The markdown name keeps the file name up to its first `.`, or all of it. */
  lemma MdNameSpec(stem: string, rest: string)
    requires '.' !in stem
    ensures MdName(stem + "." + rest) == stem + MD_SUFFIX
    ensures MdName(stem) == stem + MD_SUFFIX
  {
    SplitFree(stem, '.', "." + rest);
    assert Split("." + rest, '.')[0] == "" by {
      assert ("." + rest)[0] == '.' && ("." + rest)[1..] == rest;
    }
    assert stem + "." + rest == stem + ("." + rest);
    assert stem + "" == stem;
    SplitFree(stem, '.', "");
  }

  datatype UploadedFile = UploadedFile(filename: string, content: seq<Byte>)

  predicate IsPdf(f: UploadedFile)
  {
    EndsWith(f.filename, PDF_SUFFIX)
  }

  /** The entries collected, the PDFs saved by name, and whether a failure stopped the loop. */
  datatype Pass = Pass(entries: seq<string>, pdfs: map<string, seq<Byte>>, failed: bool)

  /**
   * The first loop of `upload`: PDFs are written to the input directory (a
   * later file of the same name overwrites), other files are decoded as text
   * and appended; a failed decode stops the loop.
   */
  function FirstPass(files: seq<UploadedFile>, decode: seq<Byte> -> Option<string>): Pass
    decreases |files|
  {
    if files == [] then Pass([], map[], false)
    else
      var f := files[0];
      if IsPdf(f) then
        var rest := FirstPass(files[1..], decode);
        rest.(pdfs := map[f.filename := f.content] + rest.pdfs)
      else
        match decode(f.content)
        case None => Pass([], map[], true)
        case Some(text) =>
          var rest := FirstPass(files[1..], decode);
          rest.(entries := [Entry(f.filename, text)] + rest.entries)
  }

  /** The non-PDF files, in upload order. */
  function TextFiles(files: seq<UploadedFile>): (r: seq<UploadedFile>)
    ensures forall f :: f in r <==> f in files && !IsPdf(f)
  {
    if files == [] then []
    else (if IsPdf(files[0]) then [] else [files[0]]) + TextFiles(files[1..])
  }

  /**
   * The first loop fails exactly when some text file does not decode;
   * otherwise it yields one entry per text file, in upload order, and saves
   * every PDF name.
   */
  lemma {:induction false} FirstPassSpec(files: seq<UploadedFile>, decode: seq<Byte> -> Option<string>)
    ensures var p := FirstPass(files, decode);
      && (p.failed <==> exists f :: f in TextFiles(files) && decode(f.content).None?)
      && (!p.failed ==>
           var tf := TextFiles(files);
           && |p.entries| == |tf|
           && (forall i :: 0 <= i < |tf| ==>
                 decode(tf[i].content).Some? && p.entries[i] == Entry(tf[i].filename, decode(tf[i].content).value))
           && (forall n :: n in p.pdfs <==> exists f :: f in files && IsPdf(f) && f.filename == n))
    decreases |files|
  {
    if files != [] {
      var f := files[0];
      var rest := FirstPass(files[1..], decode);
      FirstPassSpec(files[1..], decode);
      assert TextFiles(files) == (if IsPdf(f) then [] else [f]) + TextFiles(files[1..]);
      assert forall g :: g in files <==> g == f || g in files[1..];
    }
  }

  /**
   * When the first loop fails, it has collected exactly the entries of the
   * text files before the first one that does not decode.
   */
  lemma {:induction false} FirstPassStops(files: seq<UploadedFile>, decode: seq<Byte> -> Option<string>)
    returns (k: nat)
    requires FirstPass(files, decode).failed
    ensures var tf := TextFiles(files);
      && k < |tf| && decode(tf[k].content).None?
      && (forall i :: 0 <= i < k ==> decode(tf[i].content).Some?)
      && |FirstPass(files, decode).entries| == k
      && forall i :: 0 <= i < k ==>
           FirstPass(files, decode).entries[i] == Entry(tf[i].filename, decode(tf[i].content).value)
    decreases |files|
  {
    var f := files[0];
    var tf := TextFiles(files);
    var tf' := TextFiles(files[1..]);
    var rest := FirstPass(files[1..], decode);
    if IsPdf(f) {
      assert tf == tf';
      assert FirstPass(files, decode).entries == rest.entries;
      k := FirstPassStops(files[1..], decode);
    } else if decode(f.content).None? {
      assert tf[0] == f;
      k := 0;
    } else {
      assert tf == [f] + tf';
      var entry := Entry(f.filename, decode(f.content).value);
      assert FirstPass(files, decode).entries == [entry] + rest.entries;
      var k' := FirstPassStops(files[1..], decode);
      k := k' + 1;
      forall i | 0 < i <= k ensures tf[i] == tf'[i - 1] {
      }
    }
  }

  /**
   * The second loop of `upload`: every listed PDF is converted and appended
   * under its markdown name; a failed conversion stops the loop.
   */
  function SecondPass(listed: seq<string>, pdfs: map<string, seq<Byte>>,
                      convert: seq<Byte> -> Option<string>): (r: (seq<string>, bool))
    requires forall n :: n in listed ==> n in pdfs
    ensures |r.0| <= |listed|
    ensures !r.1 ==> |r.0| == |listed|
    decreases |listed|
  {
    if listed == [] then ([], false)
    else
      match convert(pdfs[listed[0]])
      case None => ([], true)
      case Some(text) =>
        var rest := SecondPass(listed[1..], pdfs, convert);
        ([Entry(MdName(listed[0]), text)] + rest.0, rest.1)
  }

  /** Every converted entry carries the markdown name of its PDF, in listing order. */
  lemma {:induction false} SecondPassNames(listed: seq<string>, pdfs: map<string, seq<Byte>>,
                                           convert: seq<Byte> -> Option<string>, i: nat)
    requires forall n :: n in listed ==> n in pdfs
    requires i < |SecondPass(listed, pdfs, convert).0|
    ensures convert(pdfs[listed[i]]).Some?
    ensures SecondPass(listed, pdfs, convert).0[i] == Entry(MdName(listed[i]), convert(pdfs[listed[i]]).value)
    decreases |listed|
  {
    if i > 0 {
      SecondPassNames(listed[1..], pdfs, convert, i - 1);
    }
  }

  /**
   * The second loop converts the listed PDFs up to the first failed
   * conversion, which stops it; it fails exactly when some conversion does.
   */
  lemma {:induction false} SecondPassStops(listed: seq<string>, pdfs: map<string, seq<Byte>>,
                                           convert: seq<Byte> -> Option<string>)
    returns (j: nat)
    requires forall n :: n in listed ==> n in pdfs
    ensures j <= |listed| && |SecondPass(listed, pdfs, convert).0| == j
    ensures forall i :: 0 <= i < j ==> convert(pdfs[listed[i]]).Some?
    ensures SecondPass(listed, pdfs, convert).1 <==> j < |listed|
    ensures j < |listed| ==> convert(pdfs[listed[j]]).None?
    decreases |listed|
  {
    if listed == [] {
      j := 0;
    } else if convert(pdfs[listed[0]]).None? {
      j := 0;
    } else {
      var j' := SecondPassStops(listed[1..], pdfs, convert);
      j := j' + 1;
    }
  }

  /** Distinct elements, in some order. */
  predicate Distinct(xs: seq<string>)
  {
    forall i, j :: 0 <= i < j < |xs| ==> xs[i] != xs[j]
  }

  /** `os.listdir`: each name once, in an order the file system chooses. */
  method ListDir(names: set<string>) returns (listed: seq<string>)
    ensures Distinct(listed)
    ensures forall n :: n in listed <==> n in names
  {
    listed := [];
    var remaining := names;
    while remaining != {}
      invariant remaining <= names
      invariant forall n :: n in listed <==> n in names && n !in remaining
      invariant Distinct(listed)
      decreases |remaining|
    {
      var n :| n in remaining;
      listed := listed + [n];
      remaining := remaining - {n};
    }
  }

  /** `[f.filename for f in files]` */
  function Filenames(files: seq<UploadedFile>): (names: seq<string>)
    ensures |names| == |files|
    ensures forall i :: 0 <= i < |files| ==> names[i] == files[i].filename
  {
    if files == [] then [] else [files[0].filename] + Filenames(files[1..])
  }

  datatype Reply = Reply(message: string, filenames: seq<string>)

  lemma MapUnionStep<K, V>(acc: map<K, V>, k: K, v: V, rest: map<K, V>)
    ensures acc[k := v] + rest == acc + (map[k := v] + rest)
  {
  }

  /** The first loop of `upload`, over the uploaded files. */
  method SaveAndDecode(files: seq<UploadedFile>, decode: seq<Byte> -> Option<string>)
    returns (contents: seq<string>, pdfDir: map<string, seq<Byte>>, failed: bool)
    ensures Pass(contents, pdfDir, failed) == FirstPass(files, decode)
  {
    contents := [];
    pdfDir := map[];
    failed := false;
    var i := 0;
    assert files[i..] == files;
    while i < |files|
      invariant 0 <= i <= |files|
      invariant var rest := FirstPass(files[i..], decode);
        FirstPass(files, decode) == Pass(contents + rest.entries, pdfDir + rest.pdfs, rest.failed)
    {
      var file := files[i];
      assert files[i..][0] == file && files[i..][1..] == files[i + 1..];
      if IsPdf(file) {
        MapUnionStep(pdfDir, file.filename, file.content, FirstPass(files[i + 1..], decode).pdfs);
        pdfDir := pdfDir[file.filename := file.content];
      } else {
        var text := decode(file.content);
        if text.None? {
          failed := true;
          assert contents + [] == contents && pdfDir + map[] == pdfDir;
          return;
        }
        assert contents + ([Entry(file.filename, text.value)] + FirstPass(files[i + 1..], decode).entries)
            == (contents + [Entry(file.filename, text.value)]) + FirstPass(files[i + 1..], decode).entries;
        contents := contents + [Entry(file.filename, text.value)];
      }
      i := i + 1;
    }
    assert files[i..] == [];
    assert contents + [] == contents && pdfDir + map[] == pdfDir;
  }

  /** The second loop of `upload`, over the listing of the saved PDFs. */
  method ConvertAll(listed: seq<string>, pdfDir: map<string, seq<Byte>>,
                    convert: seq<Byte> -> Option<string>)
    returns (converted: seq<string>)
    requires forall n :: n in listed ==> n in pdfDir
    ensures converted == SecondPass(listed, pdfDir, convert).0
  {
    converted := [];
    var j := 0;
    assert listed[j..] == listed;
    while j < |listed|
      invariant 0 <= j <= |listed|
      invariant SecondPass(listed, pdfDir, convert).0
             == converted + SecondPass(listed[j..], pdfDir, convert).0
    {
      assert listed[j..][0] == listed[j] && listed[j..][1..] == listed[j + 1..];
      var text := convert(pdfDir[listed[j]]);
      if text.None? {
        assert converted + [] == converted;
        return;
      }
      var entry := Entry(MdName(listed[j]), text.value);
      assert converted + ([entry] + SecondPass(listed[j + 1..], pdfDir, convert).0)
          == (converted + [entry]) + SecondPass(listed[j + 1..], pdfDir, convert).0;
      converted := converted + [entry];
      j := j + 1;
    }
    assert listed[j..] == [] && converted + [] == converted;
  }

  /** `uploaded_file_context` */
  class UploadContext {
    var context: string

    constructor ()
      ensures context == ""
    {
      context := "";
    }

    /**
     * `upload`: the first loop over the uploaded files, then, unless it
     * failed, the second loop over the listing of the saved PDFs; the context
     * becomes the blank-line join of every entry collected, and the reply
     * names every uploaded file whatever happened.
     */
    method Upload(files: seq<UploadedFile>, decode: seq<Byte> -> Option<string>,
                  convert: seq<Byte> -> Option<string>)
      returns (reply: Reply, listed: seq<string>)
      modifies this
      ensures reply == Reply(DecimalString(|files|) + " file(s) uploaded successfully", Filenames(files))
      ensures var first := FirstPass(files, decode);
        && (first.failed ==> listed == [] && context == Join(SEPARATOR, first.entries))
        && (!first.failed ==>
             && Distinct(listed) && (forall n :: n in listed <==> n in first.pdfs)
             && context == Join(SEPARATOR, first.entries + SecondPass(listed, first.pdfs, convert).0))
    {
      var contents, pdfDir, failed := SaveAndDecode(files, decode);
      listed := [];
      if !failed {
        listed := ListDir(pdfDir.Keys);
        var converted := ConvertAll(listed, pdfDir, convert);
        contents := contents + converted;
      }
      context := Join(SEPARATOR, contents);
      reply := Reply(DecimalString(|files|) + " file(s) uploaded successfully", Filenames(files));
    }
  }
}
