/** Where each export lands: the dated snapshot root, the per-page
    directory under it, the PDF file name and the attachment files
    (dump.js). The file-name sanitizer is a parameter about which nothing
    is assumed; where a fact needs its output to be slash-free, the lemma
    says so as a hypothesis. */
module Layout {
  import opened Wrappers
  import opened Paths
  import opened Content

  /** `toISOString().slice(0, 10)` keeps the `YYYY-MM-DD` part. */
  const IsoDateLength: nat := 10

  /** `s.slice(0, n)`: the first `n` characters, or all of a shorter `s`. */
  function Prefix(s: string, n: nat): string {
    if |s| <= n then s else s[..n]
  }

  /** The space key: the last `/`-piece of the item's space link. */
  function SpaceKey(page: ContentItem): (key: string)
    ensures Slash !in key
    ensures EndsAfterSlash(page.spaceLink, key)
  {
    LastSegmentShape(page.spaceLink);
    LastSegment(page.spaceLink)
  }

  /** `getRelativeOutputDir`: `space/title`, or `space/rootTitle/title`
      for a child queued under a tree root. */
  function RelativeOutputDir(page: ContentItem, root: Option<ContentItem>, sanitize: string -> string): string {
    match root
    case Some(r) => SpaceKey(page) + "/" + sanitize(r.title) + "/" + sanitize(page.title)
    case None => SpaceKey(page) + "/" + sanitize(page.title)
  }

  /** The snapshot root of a run: the output directory plus the date part
      of the run's ISO timestamp. */
  function DatedRoot(outputDir: string, isoTimestamp: string): (root: string)
    ensures Split(root) == Split(outputDir) + Split(Prefix(isoTimestamp, IsoDateLength))
    ensures |Prefix(isoTimestamp, IsoDateLength)| == if |isoTimestamp| < IsoDateLength then |isoTimestamp| else IsoDateLength
    ensures Prefix(isoTimestamp, IsoDateLength) <= isoTimestamp
  {
    SplitConcat(outputDir, Prefix(isoTimestamp, IsoDateLength));
    outputDir + [Slash] + Prefix(isoTimestamp, IsoDateLength)
  }

  /** The directory a queued export writes into. */
  function DestDir(datedRoot: string, page: ContentItem, root: Option<ContentItem>, sanitize: string -> string): string {
    datedRoot + "/" + RelativeOutputDir(page, root, sanitize)
  }

  /** The PDF file name of a page. */
  function PdfFileName(page: ContentItem, sanitize: string -> string): string {
    sanitize(page.title) + ".pdf"
  }

  /** The path the PDF of `page` is printed to. */
  function PdfPath(destDir: string, page: ContentItem, sanitize: string -> string): string {
    destDir + "/" + PdfFileName(page, sanitize)
  }

  /** The URL an attachment is downloaded from. */
  function DownloadUrl(baseUrl: string, a: Attachment): string {
    baseUrl + a.download
  }

  /** The path an attachment is written to: its title is used verbatim. */
  function AttachmentPath(destDir: string, a: Attachment): string {
    destDir + "/" + a.title
  }

  /** One attachment transfer. */
  datatype Download = Download(url: string, path: string)

  /** The transfers `exportPage` starts for an attachment listing, in
      listing order. A listing that yielded no value makes the loop throw
      before any transfer. */
  function AttachmentDownloads(destDir: string, baseUrl: string, listing: Option<seq<Attachment>>): (d: Option<seq<Download>>)
    ensures d.Some? <==> listing.Some?
    ensures d.Some? ==> |d.value| == |listing.value|
    ensures d.Some? ==> forall i | 0 <= i < |d.value| ::
              && baseUrl <= d.value[i].url && d.value[i].url[|baseUrl|..] == listing.value[i].download
              && destDir + "/" <= d.value[i].path && d.value[i].path[|destDir| + 1..] == listing.value[i].title
  {
    match listing
    case None => None
    case Some(attachments) =>
      Some(seq(|attachments|, i requires 0 <= i < |attachments| =>
        Download(DownloadUrl(baseUrl, attachments[i]), AttachmentPath(destDir, attachments[i]))))
  }

  /** The relative directory splits into the space key, the pieces of the
      sanitized root title when there is a root, and the pieces of the
      sanitized page title: its first piece is always the space key. */
  lemma RelativeDirSegments(page: ContentItem, root: Option<ContentItem>, sanitize: string -> string)
    ensures Split(RelativeOutputDir(page, root, sanitize))
            == [SpaceKey(page)]
               + (if root.Some? then Split(sanitize(root.value.title)) else [])
               + Split(sanitize(page.title))
  {
    var key := SpaceKey(page);
    match root
    case Some(r) => SplitThree(key, sanitize(r.title), sanitize(page.title));
    case None => SplitTwo(key, sanitize(page.title));
  }

  /** `a/b` splits into `a` and the pieces of `b` when `a` has no slash. */
  lemma SplitTwo(a: string, b: string)
    requires Slash !in a
    ensures Split(a + "/" + b) == [a] + Split(b)
  {
    SplitSlashCount(a);
    SplitConcat(a, b);
  }

  /** `a/b/c` splits into `a`, the pieces of `b` and those of `c` when `a`
      has no slash. */
  lemma SplitThree(a: string, b: string, c: string)
    requires Slash !in a
    ensures Split(a + "/" + b + "/" + c) == [a] + Split(b) + Split(c)
  {
    SplitTwo(a, b);
    SplitConcat(a + "/" + b, c);
  }

  /** The page directory splits into the pieces of the dated root and
      those of the relative directory. */
  lemma DestDirSegments(datedRoot: string, page: ContentItem, root: Option<ContentItem>, sanitize: string -> string)
    ensures Split(DestDir(datedRoot, page, root, sanitize))
            == Split(datedRoot) + Split(RelativeOutputDir(page, root, sanitize))
  {
    assert DestDir(datedRoot, page, root, sanitize) == datedRoot + [Slash] + RelativeOutputDir(page, root, sanitize);
    SplitConcat(datedRoot, RelativeOutputDir(page, root, sanitize));
  }

  /** The PDF sits directly in the page directory when the sanitized title
      has no slash. */
  lemma PdfPathSegments(destDir: string, page: ContentItem, sanitize: string -> string)
    requires Slash !in sanitize(page.title)
    ensures Split(PdfPath(destDir, page, sanitize)) == Split(destDir) + [sanitize(page.title) + ".pdf"]
  {
    var file := PdfFileName(page, sanitize);
    assert Slash !in file by {
      assert file == sanitize(page.title) + ".pdf";
    }
    SplitSlashCount(file);
    assert PdfPath(destDir, page, sanitize) == destDir + [Slash] + file;
    SplitConcat(destDir, file);
  }

  /** The output layout `OUTPUT_DIR/<date>/<space>/[<root>/]<title>/<title>.pdf`:
      every page gets a directory named after its sanitized title, holding
      its PDF. When the date and the sanitized names contain no slash, the
      PDF path splits into exactly these pieces after those of the output
      directory. */
  lemma OutputLayout(outputDir: string, isoTimestamp: string, page: ContentItem, root: Option<ContentItem>,
                     sanitize: string -> string)
    requires Slash !in Prefix(isoTimestamp, IsoDateLength)
    requires Slash !in sanitize(page.title)
    requires root.Some? ==> Slash !in sanitize(root.value.title)
    ensures Split(PdfPath(DestDir(DatedRoot(outputDir, isoTimestamp), page, root, sanitize), page, sanitize))
            == Split(outputDir)
               + [Prefix(isoTimestamp, IsoDateLength), SpaceKey(page)]
               + (if root.Some? then [sanitize(root.value.title)] else [])
               + [sanitize(page.title), sanitize(page.title) + ".pdf"]
  {
    var date := Prefix(isoTimestamp, IsoDateLength);
    var datedRoot := DatedRoot(outputDir, isoTimestamp);
    var destDir := DestDir(datedRoot, page, root, sanitize);
    var upper := if root.Some? then [sanitize(root.value.title)] else [];
    var title := sanitize(page.title);
    assert Split(RelativeOutputDir(page, root, sanitize)) == [SpaceKey(page)] + upper + [title] by {
      RelativeDirSegments(page, root, sanitize);
      SplitSlashCount(title);
      if root.Some? {
        SplitSlashCount(sanitize(root.value.title));
      }
    }
    assert Split(datedRoot) == Split(outputDir) + [date] by {
      SplitSlashCount(date);
    }
    DestDirSegments(datedRoot, page, root, sanitize);
    PdfPathSegments(destDir, page, sanitize);
    Regroup(Split(outputDir), date, SpaceKey(page), upper, title, title + ".pdf");
  }

  /** Regrouping the pieces of a PDF path. */
  lemma Regroup<T>(xs: seq<T>, date: T, key: T, upper: seq<T>, title: T, file: T)
    ensures xs + [date] + ([key] + upper + [title]) + [file] == xs + [date, key] + upper + [title, file]
  {
  }

  /** An attachment file lands directly inside the page's directory exactly
      when its unsanitized title has no slash; otherwise the title adds
      further path pieces, such as ".." ones. */
  lemma AttachmentStaysInDir(destDir: string, a: Attachment)
    ensures Split(AttachmentPath(destDir, a)) == Split(destDir) + [a.title] <==> Slash !in a.title
  {
    assert AttachmentPath(destDir, a) == destDir + [Slash] + a.title;
    SplitConcat(destDir, a.title);
    SplitSlashCount(a.title);
    if Split(AttachmentPath(destDir, a)) == Split(destDir) + [a.title] {
      assert Split(a.title) == [a.title] by {
        var whole := Split(destDir) + Split(a.title);
        assert whole[|Split(destDir)|..] == Split(a.title);
      }
    }
  }
}
