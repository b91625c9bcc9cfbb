/** The PDF downloader: the file name derived from a URL's path, the target path inside the
    download directory, and the download itself over an abstract transfer. */
module PdfDownload {
  import opened Wrappers
  import opened Text

  const DefaultDownloadDir: string := "./papers"
  const FallbackName: string := "downloaded.pdf"

  function Last(parts: seq<string>): string
    requires |parts| >= 1
  {
    parts[|parts| - 1]
  }

  /** `os.path.basename` of a '/'-separated path, which is also `path.split('/')[-1]`. */
  function BaseName(path: string): string
  {
    Last(Split(path, "/"))
  }

  /** The file name `download` derives from the path component of the URL. */
  function FileNameFor(urlPath: string): (name: string)
    ensures EndsWith(name, ".pdf")
  {
    if urlPath == "" then FallbackName
    else
      var base := BaseName(urlPath);
      if base != "" && EndsWith(base, ".pdf") then base
      else if Contains(urlPath, "/pdf/") then
        var arxivId := Split(Last(Split(urlPath, "/pdf/")), "/")[0];
        assert (arxivId + ".pdf")[|arxivId|..] == ".pdf";
        arxivId + ".pdf"
      else
        var name := if base == "" then FallbackName else base;
        if EndsWith(name, ".pdf") then name
        else
          assert (name + ".pdf")[|name|..] == ".pdf";
          name + ".pdf"
  }

  /** The derived name is a bare file name: it never contains '/', so the download lands
      directly in the download directory. */
  lemma FileNameIsPlain(urlPath: string)
    ensures '/' !in FileNameFor(urlPath)
  {
    SplitAvoidsSeparator(urlPath, '/');
    if urlPath != "" && Contains(urlPath, "/pdf/") {
      SplitAvoidsSeparator(Last(Split(urlPath, "/pdf/")), '/');
    }
  }

  /** A path whose last segment is a .pdf file name is saved under that name, whatever the
      directories before it. */
  lemma PdfSegmentKept(dir: string, name: string)
    requires '/' !in name && name != "" && EndsWith(name, ".pdf")
    ensures FileNameFor(dir + "/" + name) == name
  {
    SplitLast(dir, name, '/');
  }

  /** A path with no "/pdf/" whose last segment is a non-empty name without the extension
      gets ".pdf" appended to that segment. */
  lemma PlainSegmentGetsExtension(dir: string, name: string)
    requires '/' !in name && name != "" && !EndsWith(name, ".pdf")
    requires !Contains(dir + "/" + name, "/pdf/")
    ensures FileNameFor(dir + "/" + name) == name + ".pdf"
  {
    SplitLast(dir, name, '/');
  }

  /** The arxiv layout "/pdf/<id>" names the file after the identifier: "<id>.pdf", or "<id>"
      itself when it already ends in ".pdf". */
  lemma ArxivPdfPath(id: string)
    requires '/' !in id
    ensures FileNameFor("/pdf/" + id) == if id != "" && EndsWith(id, ".pdf") then id else id + ".pdf"
  {
    var path := "/pdf/" + id;
    assert BaseName(path) == id by {
      assert path == [] + "/" + ("pdf" + "/" + id);
      SplitPair("pdf", id, '/');
      assert Split(path, "/") == [""] + Split("pdf" + "/" + id, "/");
    }
    if id == "" || !EndsWith(id, ".pdf") {
      assert OccursAt(path, "/pdf/", 0);
      SplitWithoutSeparator(id, "/pdf/");
      assert Split(path, "/pdf/") == [""] + Split(id, "/pdf/");
      SplitWithoutSeparator(id, "/");
    }
  }

  /** A path that ends in '/' and is no arxiv "/pdf/" path falls back to "downloaded.pdf". */
  lemma DirectoryPathFallsBack(urlPath: string)
    requires urlPath != "" && urlPath[|urlPath| - 1] == '/'
    requires !Contains(urlPath, "/pdf/")
    ensures FileNameFor(urlPath) == FallbackName
  {
    SplitTrailingSeparator(urlPath[..|urlPath| - 1], '/');
    assert urlPath == urlPath[..|urlPath| - 1] + ['/'];
  }

  /** `os.path.join(directory, name)` for a relative name. */
  function JoinPath(directory: string, name: string): (path: string)
    ensures EndsWith(path, name)
  {
    if name != [] && name[0] == '/' then name
    else if directory == "" || EndsWith(directory, "/") then
      assert (directory + name)[|directory|..] == name;
      directory + name
    else
      assert (directory + "/" + name)[|directory| + 1..] == name;
      directory + "/" + name
  }

  /** The downloader. `urlPath(url)` stands for `urlparse(url).path`; `transfer(n, url, path)`
      says whether the n-th download attempt leaves a non-empty file at `path`, with every
      network, HTTP, URL and file-system error counted as a failure. */
  class PdfDownloader {
    const urlPath: string -> string
    const transfer: (nat, string, string) -> bool
    var attempts: seq<string>

    constructor (urlPath: string -> string, transfer: (nat, string, string) -> bool)
      ensures this.urlPath == urlPath && this.transfer == transfer && attempts == []
    {
      this.urlPath := urlPath;
      this.transfer := transfer;
      attempts := [];
    }

    /** The path a URL is saved under. */
    function TargetPath(url: string, downloadDir: string): string
    {
      JoinPath(downloadDir, FileNameFor(urlPath(url)))
    }

    /** `download`: the saved file's path, or None on any failure; never raises. */
    method Download(url: string, downloadDir: string) returns (path: Option<string>)
      modifies this
      ensures attempts == old(attempts) + [url]
      ensures path.Some? <==> transfer(|old(attempts)|, url, TargetPath(url, downloadDir))
      ensures path.Some? ==> path.value == TargetPath(url, downloadDir)
    {
      var p := urlPath(url);
      var filename: string;
      if p != "" {
        filename := BaseName(p);
        if filename == "" || !EndsWith(filename, ".pdf") {
          if Contains(p, "/pdf/") {
            var arxivId := Split(Last(Split(p, "/pdf/")), "/")[0];
            filename := arxivId + ".pdf";
          } else {
            filename := BaseName(p);
            if filename == "" {
              filename := FallbackName;
            }
            if !EndsWith(filename, ".pdf") {
              filename := filename + ".pdf";
            }
          }
        }
      } else {
        filename := FallbackName;
      }
      var filePath := JoinPath(downloadDir, filename);
      var ok := transfer(|attempts|, url, filePath);
      attempts := attempts + [url];
      if ok {
        path := Some(filePath);
      } else {
        path := None;
      }
    }
  }

  /** Every saved file is a .pdf directly inside the download directory. */
  lemma SavedFileInDirectory(url: string, downloadDir: string, d: PdfDownloader)
    ensures var path := d.TargetPath(url, downloadDir);
      var name := FileNameFor(d.urlPath(url));
      EndsWith(path, name) && EndsWith(name, ".pdf") && '/' !in name &&
      (downloadDir == "" || EndsWith(downloadDir, "/") ==> path == downloadDir + name) &&
      (downloadDir != "" && !EndsWith(downloadDir, "/") ==> path == downloadDir + "/" + name)
  {
    FileNameIsPlain(d.urlPath(url));
  }
}
