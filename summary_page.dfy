/**
 * The submit workflow of pages/SummaryPage.tsx: the empty and pattern checks on the URL, the
 * metadata lookup followed by the summary generation, the record built from both, and the
 * precedence of the loading, error and result views.
 */
module SummaryPage {
  import opened Types
  import opened Js
  import opened SummaryHistory
  import YoutubeService
  import GeminiService

  // Long texts are written as concatenations of short pieces (the text is the same), which
  // keeps the verifier's work on the functions that mention them small.
  const EmptyUrlMessage := "Please enter a " + "YouTube URL."
  const InvalidUrlMessage := "Invalid YouTube " + "URL. Please check " + "and try again."
  const FallbackMessage := "An unexpected " + "error occurred."

  // ---------------------------------------------------------------------------------------
  // The URL pattern  ^(https?:\/\/)?(www\.)?(youtube\.com|youtu\.?be)\/.+$
  // ---------------------------------------------------------------------------------------

  /** The characters `.` does not match: the ECMAScript line terminators. */
  predicate IsLineTerminator(c: char) {
    c == '\n' || c == '\r' || c == '\U{2028}' || c == '\U{2029}'
  }

  /** `.+$` (no `m` flag): at least one character, none a line terminator, up to the end. */
  predicate MatchesRest(s: string) {
    s != [] && forall k :: 0 <= k < |s| ==> !IsLineTerminator(s[k])
  }

  predicate HasPrefix(s: string, p: string) {
    |p| <= |s| && s[..|p|] == p
  }

  /** `h` then `\/` then the rest. */
  predicate MatchesHostAs(s: string, h: string) {
    HasPrefix(s, h + "/") && MatchesRest(s[|h| + 1..])
  }

  /** `(youtube\.com|youtu\.?be)\/.+$`, the alternatives in the order the engine tries them. */
  predicate MatchesHost(s: string) {
    MatchesHostAs(s, "youtube.com") || MatchesHostAs(s, "youtu.be") || MatchesHostAs(s, "youtube")
  }

  /** `(www\.)?` and what follows: with the group first, then without it. */
  predicate MatchesWww(s: string) {
    (HasPrefix(s, "www.") && MatchesHost(s[4..])) || MatchesHost(s)
  }

  /** The whole pattern, anchored at the start: `https://`, then `http://`, then no scheme. */
  predicate MatchesYoutubePattern(url: string) {
    (HasPrefix(url, "https://") && MatchesWww(url[8..])) ||
    (HasPrefix(url, "http://") && MatchesWww(url[7..])) ||
    MatchesWww(url)
  }

  predicate IsScheme(s: string) {
    s == "" || s == "http://" || s == "https://"
  }

  predicate IsWww(s: string) {
    s == "" || s == "www."
  }

  predicate IsHost(s: string) {
    s == "youtube.com" || s == "youtu.be" || s == "youtube"
  }

  /**
   * The language of the pattern, stated without any search order: the URL is an optional
   * scheme, an optional "www.", one of the three hosts, a slash, and a non-empty rest
   * free of line terminators.
   */
  ghost predicate YoutubeShape(url: string) {
    exists i, j, k :: 0 <= i <= j <= k < |url| &&
      IsScheme(url[..i]) && IsWww(url[i..j]) && IsHost(url[j..k]) && url[k] == '/' &&
      MatchesRest(url[k + 1..])
  }

  lemma HostSplit(s: string) returns (k: nat)
    requires MatchesHost(s)
    ensures k < |s| && IsHost(s[..k]) && s[k] == '/' && MatchesRest(s[k + 1..])
  {
    var h := if MatchesHostAs(s, "youtube.com") then "youtube.com"
      else if MatchesHostAs(s, "youtu.be") then "youtu.be" else "youtube";
    assert MatchesHostAs(s, h);
    k := |h|;
    assert s[..k] == s[..k + 1][..k] == (h + "/")[..k] == h;
    assert s[k] == s[..k + 1][k] == (h + "/")[k];
  }

  lemma HostJoin(s: string, k: nat)
    requires k < |s| && IsHost(s[..k]) && s[k] == '/' && MatchesRest(s[k + 1..])
    ensures MatchesHost(s)
  {
    var h := s[..k];
    assert s[..k + 1] == h + "/";
    assert MatchesHostAs(s, h);
  }

  lemma WwwSplit(s: string) returns (j: nat)
    requires MatchesWww(s)
    ensures j <= |s| && IsWww(s[..j]) && MatchesHost(s[j..])
  {
    if HasPrefix(s, "www.") && MatchesHost(s[4..]) {
      j := 4;
    } else {
      j := 0;
    }
  }

  lemma WwwJoin(s: string, j: nat)
    requires j <= |s| && IsWww(s[..j]) && MatchesHost(s[j..])
    ensures MatchesWww(s)
  {
    if j == 0 {
      assert s[j..] == s;
    }
  }

  lemma SchemeSplit(url: string) returns (i: nat)
    requires MatchesYoutubePattern(url)
    ensures i <= |url| && IsScheme(url[..i]) && MatchesWww(url[i..])
  {
    if HasPrefix(url, "https://") && MatchesWww(url[8..]) {
      i := 8;
    } else if HasPrefix(url, "http://") && MatchesWww(url[7..]) {
      i := 7;
    } else {
      i := 0;
    }
  }

  lemma SchemeJoin(url: string, i: nat)
    requires i <= |url| && IsScheme(url[..i]) && MatchesWww(url[i..])
    ensures MatchesYoutubePattern(url)
  {
    if i == 0 {
      assert url[i..] == url;
    }
  }

  lemma HostJoinAt(url: string, j: nat, k: nat)
    requires j <= k < |url| && IsHost(url[j..k]) && url[k] == '/' && MatchesRest(url[k + 1..])
    ensures MatchesHost(url[j..])
  {
    var v := url[j..];
    assert v[..k - j] == url[j..k];
    assert v[k - j] == url[k];
    assert v[k - j + 1..] == url[k + 1..];
    HostJoin(v, k - j);
  }

  lemma WwwJoinAt(url: string, i: nat, j: nat)
    requires i <= j <= |url| && IsWww(url[i..j]) && MatchesHost(url[j..])
    ensures MatchesWww(url[i..])
  {
    var u := url[i..];
    assert u[..j - i] == url[i..j];
    assert u[j - i..] == url[j..];
    WwwJoin(u, j - i);
  }

  /** A split of the URL into scheme, "www.", host, slash and rest is found by the matcher. */
  lemma ShapeJoin(url: string, i: nat, j: nat, k: nat)
    requires i <= j <= k < |url|
    requires IsScheme(url[..i]) && IsWww(url[i..j]) && IsHost(url[j..k]) && url[k] == '/'
    requires MatchesRest(url[k + 1..])
    ensures MatchesYoutubePattern(url)
  {
    HostJoinAt(url, j, k);
    WwwJoinAt(url, i, j);
    SchemeJoin(url, i);
  }

  /** `WwwSplit` on the text from index `i`, with indices into the whole URL. */
  lemma WwwSplitAt(url: string, i: nat) returns (j: nat)
    requires i <= |url| && MatchesWww(url[i..])
    ensures i <= j <= |url| && IsWww(url[i..j]) && MatchesHost(url[j..])
  {
    var j' := WwwSplit(url[i..]);
    j := i + j';
    assert url[i..][..j'] == url[i..j];
    assert url[i..][j'..] == url[j..];
  }

  /** `HostSplit` on the text from index `j`, with indices into the whole URL. */
  lemma HostSplitAt(url: string, j: nat) returns (k: nat)
    requires j <= |url| && MatchesHost(url[j..])
    ensures j <= k < |url| && IsHost(url[j..k]) && url[k] == '/' && MatchesRest(url[k + 1..])
  {
    var k' := HostSplit(url[j..]);
    k := j + k';
    assert url[j..][..k'] == url[j..k];
    assert url[j..][k' + 1..] == url[k + 1..];
  }

  /** Every URL the matcher accepts splits that way. */
  lemma ShapeSplit(url: string) returns (i: nat, j: nat, k: nat)
    requires MatchesYoutubePattern(url)
    ensures i <= j <= k < |url|
    ensures IsScheme(url[..i]) && IsWww(url[i..j]) && IsHost(url[j..k]) && url[k] == '/'
    ensures MatchesRest(url[k + 1..])
  {
    i := SchemeSplit(url);
    j := WwwSplitAt(url, i);
    k := HostSplitAt(url, j);
  }

  /** The matcher accepts exactly the URLs of the declarative shape. */
  lemma PatternCorrect(url: string)
    ensures MatchesYoutubePattern(url) <==> YoutubeShape(url)
  {
    if MatchesYoutubePattern(url) {
      var i, j, k := ShapeSplit(url);
    }
    if YoutubeShape(url) {
      var i, j, k :| 0 <= i <= j <= k < |url| &&
        IsScheme(url[..i]) && IsWww(url[i..j]) && IsHost(url[j..k]) && url[k] == '/' &&
        MatchesRest(url[k + 1..]);
      ShapeJoin(url, i, j, k);
    }
  }

  lemma HostAccepted(host: string, rest: string)
    requires IsHost(host) && MatchesRest(rest)
    ensures MatchesHost(host + ("/" + rest))
  {
    var t := host + ("/" + rest);
    assert t[..|host|] == host && t[|host|] == '/' && t[|host| + 1..] == rest;
    HostJoin(t, |host|);
  }

  lemma WwwAccepted(www: string, t: string)
    requires IsWww(www) && MatchesHost(t)
    ensures MatchesWww(www + t)
  {
    var u := www + t;
    assert u[..|www|] == www && u[|www|..] == t;
    WwwJoin(u, |www|);
  }

  lemma SchemeAccepted(scheme: string, t: string)
    requires IsScheme(scheme) && MatchesWww(t)
    ensures MatchesYoutubePattern(scheme + t)
  {
    var url := scheme + t;
    assert url[..|scheme|] == scheme && url[|scheme|..] == t;
    SchemeJoin(url, |scheme|);
  }

  lemma Regroup(a: string, b: string, c: string, d: string)
    ensures a + (b + (c + ("/" + d))) == a + b + c + "/" + d
  {
  }

  /** Any scheme, "www." choice and host, followed by a slash and a rest, is accepted. */
  lemma ShapeAccepted(scheme: string, www: string, host: string, rest: string)
    requires IsScheme(scheme) && IsWww(www) && IsHost(host) && MatchesRest(rest)
    ensures MatchesYoutubePattern(scheme + www + host + "/" + rest)
  {
    HostAccepted(host, rest);
    WwwAccepted(www, host + ("/" + rest));
    SchemeAccepted(scheme, www + (host + ("/" + rest)));
    Regroup(scheme, www, host, rest);
  }

  /** Every accepted URL has a slash before a last character that is not a line terminator. */
  lemma AcceptedHasPath(url: string)
    requires MatchesYoutubePattern(url)
    ensures exists k :: 0 <= k < |url| - 1 && url[k] == '/'
    ensures !IsLineTerminator(url[|url| - 1])
  {
    var i, j, k := ShapeSplit(url);
    assert url[|url| - 1] == url[k + 1..][|url| - k - 2];
  }

  /** The canonical watch URL is accepted. */
  lemma WatchUrlAccepted()
    ensures MatchesYoutubePattern("https://" + "www." + "youtube.com" + "/" + "watch?v=abc123")
  {
    ShapeAccepted("https://", "www.", "youtube.com", "watch?v=abc123");
  }

  /** A short link without a scheme is accepted. */
  lemma ShortLinkAccepted()
    ensures MatchesYoutubePattern("youtu.be" + "/" + "abc123")
  {
    assert "" + "" + "youtu.be" + "/" + "abc123" == "youtu.be" + "/" + "abc123";
    ShapeAccepted("", "", "youtu.be", "abc123");
  }

  /**
   * `youtu\.?be` also matches "youtube" with no top-level domain, so a bare "youtube" host
   * passes the check.
   */
  lemma BareYoutubeHostAccepted()
    ensures MatchesYoutubePattern("youtube" + "/" + "abc123")
  {
    assert "" + "" + "youtube" + "/" + "abc123" == "youtube" + "/" + "abc123";
    ShapeAccepted("", "", "youtube", "abc123");
  }

  lemma DiffersAt(s: string, p: string, k: nat)
    requires k < |p| && k < |s| && s[k] != p[k]
    ensures !HasPrefix(s, p)
  {
  }

  /**
   * A URL with nothing after the host's slash is rejected: after "https://" the only host
   * alternative that fits is "youtube.com/", which leaves no character for `.+`.
   */
  lemma BareHostRejected()
    ensures !MatchesYoutubePattern("https://youtube.com/")
  {
    var url := "https://youtube.com/";
    var s := url[8..];
    assert |s| == 12 && s[0] == 'y' && s[5] == 'b' && s[7] == '.';
    assert url[0] == 'h' && url[4] == 's';
    DiffersAt(s, "www.", 0);
    DiffersAt(s, "youtu.be" + "/", 5);
    DiffersAt(s, "youtube" + "/", 7);
    assert s[12..] == [];
    assert !MatchesHost(s);
    DiffersAt(url, "http://", 4);
    DiffersAt(url, "www.", 0);
    DiffersAt(url, "youtube.com" + "/", 0);
    DiffersAt(url, "youtu.be" + "/", 0);
    DiffersAt(url, "youtube" + "/", 0);
  }

  /** Without a slash before the last character, or ending in a line break, a URL is rejected. */
  lemma RejectedWithoutPath(url: string)
    requires (forall k :: 0 <= k < |url| - 1 ==> url[k] != '/') ||
      (url != [] && IsLineTerminator(url[|url| - 1]))
    ensures !MatchesYoutubePattern(url)
  {
    if MatchesYoutubePattern(url) {
      AcceptedHasPath(url);
    }
  }

  // ---------------------------------------------------------------------------------------
  // The submit workflow
  // ---------------------------------------------------------------------------------------

  /** `err.message || 'An unexpected error occurred.'`. */
  function ErrorText(message: string): (r: string)
    ensures r != ""
    ensures message != "" ==> r == message
  {
    if message != "" then message else FallbackMessage
  }

  /** A request the submit handler sends out. */
  datatype Request = MetadataLookup(lookupUrl: string) | Generation(prompt: string)

  /** How one submission ends. */
  datatype Outcome =
    | Rejected(message: string)
    | LookupFailed(message: string)
    | GenerationFailed(details: YoutubeService.VideoDetails, message: string)
    | Summarized(record: SummaryResult)

  /** The prompt the handler asks the generator with. */
  function PromptFor(url: string, format: SummaryFormat): string {
    GeminiService.Prompt(url, Label(format), GeminiService.Instruction(format))
  }

  /**
   * A submission of `url` in `format`, given what the lookup and the generation settle to,
   * the instant `now` (the record's id) and the display date `today`.
   */
  function Submit(url: string, format: SummaryFormat, lookup: YoutubeService.FetchReply,
                  generation: GeminiService.GenReply, now: int, today: string): Outcome
  {
    if url == "" then Rejected(EmptyUrlMessage)
    else if !MatchesYoutubePattern(url) then Rejected(InvalidUrlMessage)
    else Requested(url, format, lookup, generation, now, today)
  }

  /** The part of a submission after the guards: the lookup, then the generation. */
  function Requested(url: string, format: SummaryFormat, lookup: YoutubeService.FetchReply,
                     generation: GeminiService.GenReply, now: int, today: string): Outcome
  {
    match YoutubeService.GetVideoDetails(lookup)
    case Failure(m) => LookupFailed(ErrorText(m))
    case Success(d) =>
      match GeminiService.Generated(generation)
      case Failure(m) => GenerationFailed(d, ErrorText(m))
      case Success(text) =>
        Summarized(SummaryResult(now, d.title, d.thumbnail, url, text, format, today))
  }

  /**
   * The guards come before any request: an empty URL, then a URL outside the pattern, is
   * rejected with its message whatever the services would have answered.
   */
  lemma SubmitGuards(url: string, format: SummaryFormat, lookup: YoutubeService.FetchReply,
                     generation: GeminiService.GenReply, now: int, today: string)
    ensures url == "" ==> Submit(url, format, lookup, generation, now, today) == Rejected(EmptyUrlMessage)
    ensures url != "" && !YoutubeShape(url) ==>
      Submit(url, format, lookup, generation, now, today) == Rejected(InvalidUrlMessage)
    ensures Submit(url, format, lookup, generation, now, today).Rejected? <==> !YoutubeShape(url)
  {
    PatternCorrect(url);
    if url == "" {
      assert !YoutubeShape(url);
    }
  }

  /**
   * A record is produced exactly when the URL has the shape, the lookup succeeds and the
   * generation succeeds; it carries the URL and format submitted, the instant as its id, the
   * title and thumbnail the lookup returned and the generated text.
   */
  lemma SummarizedExactly(url: string, format: SummaryFormat, lookup: YoutubeService.FetchReply,
                          generation: GeminiService.GenReply, now: int, today: string)
    ensures Submit(url, format, lookup, generation, now, today).Summarized? <==>
      YoutubeShape(url) && YoutubeService.GetVideoDetails(lookup).Success? &&
      GeminiService.Generated(generation).Success?
    ensures Submit(url, format, lookup, generation, now, today).Summarized? ==>
      var r := Submit(url, format, lookup, generation, now, today).record;
      var d := YoutubeService.GetVideoDetails(lookup).value;
      r.id == now && r.videoUrl == url && r.format == format && r.createdAt == today &&
      r.videoTitle == d.title && r.videoThumbnail == d.thumbnail &&
      r.summary == GeminiService.Generated(generation).value &&
      r.videoTitle != "" && r.videoThumbnail != "" && r.summary != ""
  {
    SubmitGuards(url, format, lookup, generation, now, today);
    GeminiService.GeneratedCases(generation);
  }

  /**
   * A failed lookup stops the submission before generation and reports the lookup's own
   * message; a failed generation reports the generator's. No failure message is empty.
   */
  lemma FailuresReportTheirCause(url: string, format: SummaryFormat, lookup: YoutubeService.FetchReply,
                                 generation: GeminiService.GenReply, now: int, today: string)
    requires YoutubeShape(url)
    ensures YoutubeService.GetVideoDetails(lookup).Failure? ==>
      Submit(url, format, lookup, generation, now, today) ==
        LookupFailed(YoutubeService.GetVideoDetails(lookup).error)
    ensures YoutubeService.GetVideoDetails(lookup).Success? && GeminiService.Generated(generation).Failure? ==>
      Submit(url, format, lookup, generation, now, today) ==
        GenerationFailed(YoutubeService.GetVideoDetails(lookup).value, GeminiService.Generated(generation).error)
    ensures !Submit(url, format, lookup, generation, now, today).Summarized? ==>
      Submit(url, format, lookup, generation, now, today).message != ""
  {
    PatternCorrect(url);
    SubmitGuards(url, format, lookup, generation, now, today);
    GeminiService.GeneratedCases(generation);
  }

  /** The area below the form. */
  datatype View = LoadingIndicator | ErrorBanner(text: string) | ResultCard(shown: SummaryResult) | Nothing

  /** The loading indicator wins, then a non-empty error, then a result. */
  function Display(isLoading: bool, error: Option<string>, result: Option<SummaryResult>): View {
    if isLoading then LoadingIndicator
    else if error.Some? && error.value != "" then ErrorBanner(error.value)
    else if result.Some? then ResultCard(result.value)
    else Nothing
  }

  // ---------------------------------------------------------------------------------------
  // The page's state
  // ---------------------------------------------------------------------------------------

  /** The page component: its state hooks, and its own instance of the history hook. */
  class Page {
    var url: string
    var format: SummaryFormat
    var isLoading: bool
    var error: Option<string>
    var result: Option<SummaryResult>
    const store: HistoryStore

    /** The first render: empty URL, Key Topics, nothing shown; the history is read from `slot`. */
    constructor (slot: HistorySlot)
      ensures url == "" && format == KeyTopics && !isLoading && error == None && result == None
      ensures fresh(store) && store.history == LoadHistory(slot) && store.stored == slot
    {
      url := "";
      format := KeyTopics;
      isLoading := false;
      error := None;
      result := None;
      store := new HistoryStore(slot);
    }

    /** The URL field's change handler. */
    method SetUrl(u: string)
      modifies this
      ensures url == u
      ensures format == old(format) && isLoading == old(isLoading)
      ensures error == old(error) && result == old(result)
    {
      url := u;
    }

    /** A format radio button's change handler. */
    method SetFormat(f: SummaryFormat)
      modifies this
      ensures format == f
      ensures url == old(url) && isLoading == old(isLoading)
      ensures error == old(error) && result == old(result)
    {
      format := f;
    }

    /** What the area below the form shows. */
    function View(): View
      reads this
    {
      Display(isLoading, error, result)
    }

    /**
     * `handleSubmit`, run to completion: the requests it sends, in order, and the state once
     * the `finally` block has run. `lookup` and `generation` are what the two service calls
     * settle to, `now` the instant the record is stamped with, `today` its display date, and
     * `writeOk` whether the history write succeeds.
     */
    method HandleSubmit(lookup: YoutubeService.FetchReply, generation: GeminiService.GenReply,
                        now: int, today: string, writeOk: bool)
      returns (requests: seq<Request>)
      modifies this, store
      ensures url == old(url) && format == old(format)
      ensures var o := Submit(url, format, lookup, generation, now, today);
        match o
        case Rejected(m) =>
          requests == [] && error == Some(m) && isLoading == old(isLoading) &&
          result == old(result) && unchanged(store)
        case LookupFailed(m) =>
          requests == [MetadataLookup(YoutubeService.LookupUrl(url))] &&
          !isLoading && error == Some(m) && result == None && unchanged(store)
        case GenerationFailed(_, m) =>
          requests == [MetadataLookup(YoutubeService.LookupUrl(url)), Generation(PromptFor(url, format))] &&
          !isLoading && error == Some(m) && result == None && unchanged(store)
        case Summarized(r) =>
          requests == [MetadataLookup(YoutubeService.LookupUrl(url)), Generation(PromptFor(url, format))] &&
          !isLoading && error == None && result == Some(r) &&
          store.history == Added(old(store.history), r) &&
          store.stored == (if writeOk then Persist(store.history) else old(store.stored))
    {
      ghost var o := Submit(url, format, lookup, generation, now, today);
      requests := [];
      if url == "" {
        assert o == Rejected(EmptyUrlMessage);
        error := Some(EmptyUrlMessage);
        return;
      }
      if !MatchesYoutubePattern(url) {
        assert o == Rejected(InvalidUrlMessage);
        error := Some(InvalidUrlMessage);
        return;
      }
      isLoading := true;
      error := None;
      result := None;
      requests := requests + [MetadataLookup(YoutubeService.LookupUrl(url))];
      var details := YoutubeService.GetVideoDetails(lookup);
      match details {
        case Failure(m) =>
          assert o == LookupFailed(ErrorText(m));
          error := Some(ErrorText(m));
        case Success(d) =>
          var prompt, summaryText := GeminiService.GenerateSummary(url, format, generation);
          requests := requests + [Generation(prompt)];
          assert prompt == PromptFor(url, format);
          match summaryText {
            case Failure(m) =>
              assert o == GenerationFailed(d, ErrorText(m));
              error := Some(ErrorText(m));
            case Success(text) =>
              var newResult := SummaryResult(now, d.title, d.thumbnail, url, text, format, today);
              assert o == Summarized(newResult);
              result := Some(newResult);
              store.Add(newResult, writeOk);
          }
      }
      isLoading := false;
    }
  }

  /**
   * After a submission that got past the guards, the page shows the new record or the
   * failure's message; a rejection shows its message unless a submission is still loading.
   */
  lemma ViewAfterSubmit(o: Outcome, wasLoading: bool, oldResult: Option<SummaryResult>)
    requires !o.Summarized? ==> o.message != ""
    ensures o.Summarized? ==> Display(false, None, Some(o.record)) == ResultCard(o.record)
    ensures o.LookupFailed? || o.GenerationFailed? ==> Display(false, Some(o.message), None) == ErrorBanner(o.message)
    ensures o.Rejected? ==>
      Display(wasLoading, Some(o.message), oldResult) ==
        (if wasLoading then LoadingIndicator else ErrorBanner(o.message))
  {
  }
}
