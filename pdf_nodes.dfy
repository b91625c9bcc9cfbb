/** The PDF nodes: collect the distinct non-empty pdf URLs of the retrieved chunks (or of the
    found papers) and download each once, keeping the paths of the downloads that worked.
    The URLs are visited in an unspecified order, as Python's set iteration is. */
module PdfNodes {
  import opened Wrappers
  import opened Records
  import opened PdfDownload

  /** The distinct non-empty pdf URLs carried by chunk metadata. */
  function UrlsOfMetadata(metas: seq<ChunkMetadata>): set<string>
  {
    set m | m in metas && TruthyPdfUrl(m.pdfUrl).Some? :: m.pdfUrl.value
  }

  /** The distinct non-empty pdf URLs of papers. */
  function UrlsOfPapers(papers: seq<Paper>): set<string>
  {
    set p | p in papers && TruthyPdfUrl(p.pdfUrl).Some? :: p.pdfUrl.value
  }

  /** Where the downloader saves a URL in the default download directory. */
  function Target(d: PdfDownloader): string -> string
  {
    u => d.TargetPath(u, DefaultDownloadDir)
  }

  /** The paths saved by the download attempts `log[start..]`, attempt k being the k-th call
      of the downloader: the target paths of the attempts that worked, in attempt order. */
  function Saved(transfer: (nat, string, string) -> bool, target: string -> string, log: seq<string>, start: nat): seq<string>
    requires start <= |log|
    decreases |log|
  {
    if |log| == start then []
    else
      var k := |log| - 1;
      Saved(transfer, target, log[..k], start) + (if transfer(k, log[k], target(log[k])) then [target(log[k])] else [])
  }

  /** The outcome of one more attempt, as the downloader reports it, extends the saved paths. */
  lemma SavedAfter(transfer: (nat, string, string) -> bool, target: string -> string, log: seq<string>, start: nat,
                   u: string, saved: Option<string>)
    requires start <= |log|
    requires saved.Some? <==> transfer(|log|, u, target(u))
    requires saved.Some? ==> saved.value == target(u)
    ensures Saved(transfer, target, log + [u], start)
      == Saved(transfer, target, log, start) + if saved.Some? then [saved.value] else []
  {
    assert (log + [u])[..|log|] == log;
  }

  /** At most one path per attempt, and exactly one when every attempt works. */
  lemma {:induction false} SavedLength(transfer: (nat, string, string) -> bool, target: string -> string, log: seq<string>, start: nat)
    requires start <= |log|
    ensures |Saved(transfer, target, log, start)| <= |log| - start
    ensures (forall k :: start <= k < |log| ==> transfer(k, log[k], target(log[k])))
      ==> |Saved(transfer, target, log, start)| == |log| - start
    decreases |log|
  {
    if |log| != start {
      SavedLength(transfer, target, log[..|log| - 1], start);
    }
  }

  /** Every saved path is the target path of an attempt that worked. */
  lemma {:induction false} SavedAreTargets(transfer: (nat, string, string) -> bool, target: string -> string, log: seq<string>, start: nat)
    requires start <= |log|
    ensures forall p :: p in Saved(transfer, target, log, start) ==>
      exists k :: start <= k < |log| && p == target(log[k]) && transfer(k, log[k], p)
    decreases |log|
  {
    if |log| != start {
      var last := |log| - 1;
      SavedAreTargets(transfer, target, log[..last], start);
      forall p | p in Saved(transfer, target, log, start)
        ensures exists k :: start <= k < |log| && p == target(log[k]) && transfer(k, log[k], p)
      {
        if p in Saved(transfer, target, log[..last], start) {
          var k :| start <= k < last && p == target(log[..last][k]) && transfer(k, log[..last][k], p);
          assert log[..last][k] == log[k];
        }
      }
    }
  }

  /** The collection loop over chunk metadata. */
  method CollectMetadataUrls(metas: seq<ChunkMetadata>) returns (urls: set<string>)
    ensures urls == UrlsOfMetadata(metas)
  {
    urls := {};
    for i := 0 to |metas|
      invariant urls == UrlsOfMetadata(metas[..i])
    {
      assert metas[..i + 1] == metas[..i] + [metas[i]];
      var url := metas[i].pdfUrl;
      if url.Some? && url.value != "" {
        urls := urls + {url.value};
      }
    }
    assert metas[..|metas|] == metas;
  }

  /** The collection loop over papers. */
  method CollectPaperUrls(papers: seq<Paper>) returns (urls: set<string>)
    ensures urls == UrlsOfPapers(papers)
  {
    urls := {};
    for i := 0 to |papers|
      invariant urls == UrlsOfPapers(papers[..i])
    {
      assert papers[..i + 1] == papers[..i] + [papers[i]];
      var url := papers[i].pdfUrl;
      if url.Some? && url.value != "" {
        urls := urls + {url.value};
      }
    }
    assert papers[..|papers|] == papers;
  }

  /** The distinct elements of a sequence. */
  function Elements(urls: seq<string>): set<string>
  {
    set u | u in urls
  }

  /** An iteration order of a set: each element once, in an order the set does not fix. */
  method Enumerate(urls: set<string>) returns (order: seq<string>)
    ensures |order| == |urls| && Elements(order) == urls
  {
    order := [];
    var remaining := urls;
    while remaining != {}
      invariant urls == Elements(order) + remaining
      invariant |order| + |remaining| == |urls|
      decreases |remaining|
    {
      var u :| u in remaining;
      assert Elements(order + [u]) == Elements(order) + {u};
      order := order + [u];
      remaining := remaining - {u};
    }
  }

  /** The download loop: every URL is attempted exactly once, in some order, and the paths of
      the attempts that worked are kept in that order. */
  method DownloadAll(urls: set<string>, d: PdfDownloader) returns (paths: seq<string>)
    modifies d
    ensures |d.attempts| == |old(d.attempts)| + |urls|
    ensures d.attempts[..|old(d.attempts)|] == old(d.attempts)
    ensures Elements(d.attempts[|old(d.attempts)|..]) == urls
    ensures paths == Saved(d.transfer, Target(d), d.attempts, |old(d.attempts)|)
    ensures |paths| <= |urls|
  {
    var order := Enumerate(urls);
    ghost var start := |d.attempts|;
    paths := [];
    for i := 0 to |order|
      invariant d.attempts == old(d.attempts) + order[..i]
      invariant paths == Saved(d.transfer, Target(d), d.attempts, start)
    {
      paths := DownloadOne(order[i], d, paths, start);
      LogGrows(old(d.attempts), order, i);
    }
    AppendParts(old(d.attempts), order);
    SavedLength(d.transfer, Target(d), d.attempts, start);
  }

  /** The two parts of a log extended by appending. */
  lemma AppendParts(log: seq<string>, more: seq<string>)
    ensures (log + more)[..|log|] == log && (log + more)[|log|..] == more && more[..|more|] == more
  {
  }

  /** Logging the next URL of an order extends the logged prefix of that order. */
  lemma LogGrows(log: seq<string>, order: seq<string>, i: nat)
    requires i < |order|
    ensures log + order[..i] + [order[i]] == log + order[..i + 1]
  {
    assert order[..i + 1] == order[..i] + [order[i]];
  }

  /** One iteration of the download loop: the attempt is logged and its path kept when it
      worked. */
  method DownloadOne(u: string, d: PdfDownloader, paths: seq<string>, ghost start: nat) returns (paths': seq<string>)
    requires start <= |d.attempts|
    requires paths == Saved(d.transfer, Target(d), d.attempts, start)
    modifies d
    ensures d.attempts == old(d.attempts) + [u]
    ensures paths' == Saved(d.transfer, Target(d), d.attempts, start)
  {
    var saved := d.Download(u, DefaultDownloadDir);
    SavedAfter(d.transfer, Target(d), old(d.attempts), start, u, saved);
    paths' := paths + if saved.Some? then [saved.value] else [];
  }

  /** `extract_pdf_urls_from_results`: every distinct non-empty pdf URL of the retrieved
      chunks is downloaded once and `downloaded_pdfs` lists the saved paths; without URLs it
      is [] and nothing is downloaded. Only `downloaded_pdfs` changes. */
  method ExtractPdfUrlsFromResults(s: GraphState, d: PdfDownloader) returns (s': GraphState)
    modifies d
    ensures |old(d.attempts)| <= |d.attempts| && d.attempts[..|old(d.attempts)|] == old(d.attempts)
    ensures var urls := UrlsOfMetadata(Metadatas(s.chromaResults));
      var attempted := d.attempts[|old(d.attempts)|..];
      |attempted| == |urls| && Elements(attempted) == urls &&
      s' == s.(downloadedPdfs := Saved(d.transfer, Target(d), d.attempts, |old(d.attempts)|))
  {
    var urls := CollectMetadataUrls(Metadatas(s.chromaResults));
    if urls == {} {
      assert d.attempts[|d.attempts|..] == [];
      return s.(downloadedPdfs := []);
    }
    var paths := DownloadAll(urls, d);
    s' := s.(downloadedPdfs := paths);
  }

  /** `download_pdfs_from_state`: the same over the found papers; with no papers
      `downloaded_pdfs` becomes [] and nothing is downloaded. */
  method DownloadPdfsFromState(s: GraphState, d: PdfDownloader) returns (s': GraphState)
    modifies d
    ensures |old(d.attempts)| <= |d.attempts| && d.attempts[..|old(d.attempts)|] == old(d.attempts)
    ensures var urls := UrlsOfPapers(s.arxivPapers);
      var attempted := d.attempts[|old(d.attempts)|..];
      |attempted| == |urls| && Elements(attempted) == urls &&
      s' == s.(downloadedPdfs := Saved(d.transfer, Target(d), d.attempts, |old(d.attempts)|))
    ensures s.arxivPapers == [] ==> d.attempts == old(d.attempts) && s' == s.(downloadedPdfs := [])
  {
    var paths: seq<string> := [];
    if s.arxivPapers != [] {
      var urls := CollectPaperUrls(s.arxivPapers);
      paths := DownloadAll(urls, d);
    } else {
      assert d.attempts[|d.attempts|..] == [];
    }
    s' := s.(downloadedPdfs := paths);
  }
}
