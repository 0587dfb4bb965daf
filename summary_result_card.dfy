/**
 * What components/SummaryResultCard.tsx exports and copies: the file name stem derived from the
 * video title, the TXT and PDF file names, and the texts placed in each export.
 */
module SummaryResultCard {
  import opened Types
  import opened Js

  const TxtSuffix := "_summary.txt"
  const PdfSuffix := "_summary.pdf"
  const SourcePrefix := "Source: "

  /** `title.replace(/\s+/g, '_')`: every maximal run of whitespace becomes one underscore. */
  function ExportStem(title: string): (stem: string)
    ensures forall k :: 0 <= k < |stem| ==> !IsSpace(stem[k])
    ensures |stem| <= |title|
    ensures (forall k :: 0 <= k < |title| ==> !IsSpace(title[k])) ==> stem == title
    decreases |title|
  {
    if title == [] then []
    else if IsSpace(title[0]) then
      var rest := TrimStart(title);
      assert |rest| < |title|;
      "_" + ExportStem(rest)
    else [title[0]] + ExportStem(title[1..])
  }

  /** Skipping whitespace in front of a text that starts with a non-space character leaves that text. */
  lemma {:induction false} TrimStartSkipsRun(w: string, y: string)
    requires forall k :: 0 <= k < |w| ==> IsSpace(w[k])
    requires y == [] || !IsSpace(y[0])
    ensures TrimStart(w + y) == y
  {
    if w != [] {
      assert (w + y)[1..] == w[1..] + y;
      TrimStartSkipsRun(w[1..], y);
    } else {
      assert w + y == y;
    }
  }

  /** Skipping leading whitespace stops inside a text that holds a non-space character. */
  lemma {:induction false} TrimStartWithin(x: string, z: string)
    requires x != [] && !IsSpace(x[|x| - 1])
    ensures TrimStart(x + z) == TrimStart(x) + z
  {
    if IsSpace(x[0]) {
      assert (x + z)[1..] == x[1..] + z;
      TrimStartWithin(x[1..], z);
    }
  }

  /** A text led by whitespace: one underscore, then the stem of what follows the run. */
  lemma StemOfRun(s: string)
    requires s != [] && IsSpace(s[0])
    ensures ExportStem(s) == "_" + ExportStem(TrimStart(s))
  {
  }

  /** A text led by a non-space character keeps it. */
  lemma StemOfChar(s: string)
    requires s != [] && !IsSpace(s[0])
    ensures ExportStem(s) == [s[0]] + ExportStem(s[1..])
  {
  }

  /**
   * A whitespace run between two texts that do not touch it with whitespace of their own
   * becomes exactly one underscore, and each side is rewritten on its own.
   */
  lemma {:induction false} StemJoin(x: string, w: string, y: string)
    requires w != [] && forall k :: 0 <= k < |w| ==> IsSpace(w[k])
    requires x == [] || !IsSpace(x[|x| - 1])
    requires y == [] || !IsSpace(y[0])
    ensures ExportStem(x + w + y) == ExportStem(x) + "_" + ExportStem(y)
    decreases |x|
  {
    if x == [] {
      assert x + w + y == w + y;
      StemOfJoinedRun(w, y);
    } else if IsSpace(x[0]) {
      var t := TrimStart(x);
      StemJoinAfterRun(x, w, y);
      StemJoin(t, w, y);
      Regroup("_", ExportStem(t), ExportStem(y));
    } else {
      StemJoinAfterChar(x, w, y);
      StemJoin(x[1..], w, y);
      Regroup([x[0]], ExportStem(x[1..]), ExportStem(y));
    }
  }

  /** A whitespace run in front of a text that does not start with whitespace becomes one underscore. */
  lemma StemOfJoinedRun(w: string, y: string)
    requires w != [] && forall k :: 0 <= k < |w| ==> IsSpace(w[k])
    requires y == [] || !IsSpace(y[0])
    ensures ExportStem(w + y) == "_" + ExportStem(y)
  {
    TrimStartSkipsRun(w, y);
    StemOfRun(w + y);
  }

  lemma Regroup(p: string, a: string, c: string)
    ensures p + (a + "_" + c) == p + a + "_" + c
  {
  }

  /** The step of `StemJoin` for a text that starts with whitespace. */
  lemma StemJoinAfterRun(x: string, w: string, y: string)
    requires x != [] && IsSpace(x[0]) && !IsSpace(x[|x| - 1])
    ensures |TrimStart(x)| < |x|
    ensures TrimStart(x) != [] && !IsSpace(TrimStart(x)[|TrimStart(x)| - 1])
    ensures ExportStem(x + w + y) == "_" + ExportStem(TrimStart(x) + w + y)
    ensures ExportStem(x) == "_" + ExportStem(TrimStart(x))
  {
    TrimStartKeepsLast(x);
    TrimStartOfJoin(x, w, y);
    StemOfRun(x + w + y);
    StemOfRun(x);
  }

  /** Skipping the leading run of a text that ends in a non-space character keeps that end. */
  lemma TrimStartKeepsLast(x: string)
    requires x != [] && IsSpace(x[0]) && !IsSpace(x[|x| - 1])
    ensures |TrimStart(x)| < |x|
    ensures TrimStart(x) != [] && TrimStart(x)[|TrimStart(x)| - 1] == x[|x| - 1]
  {
  }

  /** Skipping the leading run of `x + w + y` stops inside `x`. */
  lemma TrimStartOfJoin(x: string, w: string, y: string)
    requires x != [] && !IsSpace(x[|x| - 1])
    ensures x + w + y != []
    ensures TrimStart(x + w + y) == TrimStart(x) + w + y
  {
    assert x + w + y == x + (w + y);
    TrimStartWithin(x, w + y);
    assert TrimStart(x) + (w + y) == TrimStart(x) + w + y;
  }

  /** The step of `StemJoin` for a text that starts with a non-space character. */
  lemma StemJoinAfterChar(x: string, w: string, y: string)
    requires x != [] && !IsSpace(x[0])
    ensures ExportStem(x + w + y) == [x[0]] + ExportStem(x[1..] + w + y)
    ensures ExportStem(x) == [x[0]] + ExportStem(x[1..])
  {
    assert (x + w + y)[1..] == x[1..] + w + y;
    StemOfChar(x + w + y);
    StemOfChar(x);
  }

  /** Rewriting a stem again leaves it as it is. */
  lemma StemIdempotent(title: string)
    ensures ExportStem(ExportStem(title)) == ExportStem(title)
  {
  }

  function TxtFilename(title: string): string {
    ExportStem(title) + TxtSuffix
  }

  function PdfFilename(title: string): string {
    ExportStem(title) + PdfSuffix
  }

  /**
   * Both file names are the stem followed by their own suffix, contain no whitespace, and use
   * a title that has no whitespace unchanged.
   */
  lemma FilenamesShareStem(title: string)
    ensures TxtFilename(title)[..|ExportStem(title)|] == ExportStem(title)
    ensures PdfFilename(title)[..|ExportStem(title)|] == ExportStem(title)
    ensures TxtFilename(title)[|ExportStem(title)|..] == TxtSuffix
    ensures PdfFilename(title)[|ExportStem(title)|..] == PdfSuffix
    ensures forall k :: 0 <= k < |TxtFilename(title)| ==> !IsSpace(TxtFilename(title)[k])
    ensures forall k :: 0 <= k < |PdfFilename(title)| ==> !IsSpace(PdfFilename(title)[k])
    ensures (forall k :: 0 <= k < |title| ==> !IsSpace(title[k])) ==>
      TxtFilename(title) == title + TxtSuffix && PdfFilename(title) == title + PdfSuffix
  {
    var stem := ExportStem(title);
    assert forall k :: 0 <= k < |TxtSuffix| ==> !IsSpace(TxtSuffix[k]);
    assert forall k :: 0 <= k < |PdfSuffix| ==> !IsSpace(PdfSuffix[k]);
    assert forall k :: |stem| <= k < |TxtFilename(title)| ==> TxtFilename(title)[k] == TxtSuffix[k - |stem|];
    assert forall k :: |stem| <= k < |PdfFilename(title)| ==> PdfFilename(title)[k] == PdfSuffix[k - |stem|];
  }

  /** One `doc.text(...)` call: the text and where it is placed. */
  datatype PdfText = PdfText(text: string, x: int, y: int, fontSize: nat)

  /** The texts `handleExportPDF` places, in order: title, source line, body. */
  function PdfTexts(r: SummaryResult): seq<PdfText> {
    [PdfText(r.videoTitle, 10, 20, 16), PdfText(SourcePrefix + r.videoUrl, 10, 28, 10), PdfText(r.summary, 10, 40, 12)]
  }

  /** The blob `handleExportTXT` downloads. */
  function TxtContent(r: SummaryResult): string {
    r.summary
  }

  /** What `handleCopy` writes to the clipboard. */
  function CopiedText(r: SummaryResult): string {
    r.summary
  }

  /**
   * The TXT export and the copied text are the summary itself; the PDF holds the title, then
   * the source line naming the video URL, then the summary, each placed lower on the page.
   */
  lemma ExportContents(r: SummaryResult)
    ensures TxtContent(r) == r.summary && CopiedText(r) == r.summary
    ensures |PdfTexts(r)| == 3
    ensures PdfTexts(r)[0].text == r.videoTitle
    ensures PdfTexts(r)[1].text[..|SourcePrefix|] == SourcePrefix
    ensures PdfTexts(r)[1].text[|SourcePrefix|..] == r.videoUrl
    ensures PdfTexts(r)[2].text == r.summary
    ensures forall i, j :: 0 <= i < j < |PdfTexts(r)| ==> PdfTexts(r)[i].y < PdfTexts(r)[j].y
  {
  }
}
