/**
 * The data model of types.ts: the three summary formats, the summary record and the user
 * record, plus the Option/Result wrappers the rest of the model uses for absent values and
 * for a service call that either returns or throws.
 */
module Types {

  datatype Option<+T> = None | Some(value: T)

  /** A call that returns `value` or throws an error whose message is `error`. */
  datatype Result<+T, +E> = Success(value: T) | Failure(error: E)

  /** `enum SummaryFormat`: a string enum whose members' values are their display labels. */
  datatype SummaryFormat = KeyTopics | DetailedParagraph | Abstract

  /** The enum member's string value, which the page shows and the prompt embeds. */
  function Label(f: SummaryFormat): string {
    match f
    case KeyTopics => "Key Topics (bullets)"
    case DetailedParagraph => "Detailed Paragraph"
    case Abstract => "Abstract (1-2 sentences)"
  }

  /**
   * `Object.values(SummaryFormat)`, in declaration order, as the format picker lists them:
   * every format exactly once.
   */
  function AllFormats(): (r: seq<SummaryFormat>)
    ensures |r| == 3
    ensures forall f :: f in r
    ensures forall i, j :: 0 <= i < j < |r| ==> r[i] != r[j]
  {
    var r := [KeyTopics, DetailedParagraph, Abstract];
    assert forall f: SummaryFormat :: (f.KeyTopics? || f.DetailedParagraph? || f.Abstract?) ==> f in r;
    r
  }

  /** The format whose label is `s`, if any. */
  function FormatOfLabel(s: string): (r: Option<SummaryFormat>)
    ensures r.Some? ==> Label(r.value) == s
    ensures r.None? ==> forall f :: Label(f) != s
  {
    if s == Label(KeyTopics) then Some(KeyTopics)
    else if s == Label(DetailedParagraph) then Some(DetailedParagraph)
    else if s == Label(Abstract) then Some(Abstract)
    else None
  }

  /** The labels are pairwise distinct: a format is recovered from its label. */
  lemma LabelRoundTrip(f: SummaryFormat)
    ensures FormatOfLabel(Label(f)) == Some(f)
  {
    match f
    case KeyTopics =>
    case DetailedParagraph =>
      assert Label(DetailedParagraph)[0] != Label(KeyTopics)[0];
    case Abstract =>
      assert Label(Abstract)[0] != Label(KeyTopics)[0];
      assert Label(Abstract)[0] != Label(DetailedParagraph)[0];
  }

  /** Label-of is injective. */
  lemma LabelInjective(f: SummaryFormat, g: SummaryFormat)
    ensures Label(f) == Label(g) ==> f == g
  {
    LabelRoundTrip(f);
    LabelRoundTrip(g);
  }

  /**
   * `interface SummaryResult`. The id is `new Date().toISOString()` in the source; ISO-8601
   * timestamps order like the instants they denote, so the model keeps the instant, in
   * milliseconds. `createdAt` is an opaque display string.
   */
  datatype SummaryResult = SummaryResult(
    id: int,
    videoTitle: string,
    videoThumbnail: string,
    videoUrl: string,
    summary: string,
    format: SummaryFormat,
    createdAt: string)

  /** `interface User`. */
  datatype User = User(id: string, email: string, name: string)
}
