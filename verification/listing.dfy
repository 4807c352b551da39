/**
 * `list_remote_files`: classify the response to a directory listing request and keep the
 * anchors whose target names a data file. The HTTP exchange and the HTML parsing are not
 * modelled; their outcome is the input.
 */
module Listing {
  import opened Wrappers

  /** The suffixes `str.endswith` is given; matching is case-sensitive. */
  const ValidExtensions: seq<string> := [".sav", ".cdf", ".asc", ".txt"]

  /**
   * What the GET and the parser produced: a status code with the `href` of every anchor in
   * document order (None for an anchor without one), or an exception and its message.
   */
  datatype Response = Http(status: int, hrefs: seq<Option<string>>) | Raised(message: string)

  /** The ("ok", files), ("auth", []) and ("error", message) outcomes. */
  datatype Listing = ListOk(files: seq<string>) | ListAuth | ListError(message: string)

  predicate EndsWith(s: string, suffix: string) {
    |suffix| <= |s| && s[|s| - |suffix|..] == suffix
  }

  /** `s.endswith(suffixes)` for a tuple of suffixes. */
  function EndsWithAny(s: string, suffixes: seq<string>): (b: bool)
    ensures b <==> exists i :: 0 <= i < |suffixes| && EndsWith(s, suffixes[i])
  {
    if suffixes == [] then false
    else EndsWith(s, suffixes[0]) || EndsWithAny(s, suffixes[1..])
  }

  predicate IsDataFile(name: string) {
    EndsWithAny(name, ValidExtensions)
  }

  /** `a.get("href", "")`: a missing attribute reads as the empty string. */
  function HrefOrEmpty(href: Option<string>): string {
    if href.Some? then href.value else ""
  }

  /** The list comprehension: the hrefs that end in a recognised suffix, in document order. */
  function DataFileHrefs(hrefs: seq<Option<string>>): (r: seq<string>)
    ensures |r| <= |hrefs|
    ensures forall k :: 0 <= k < |r| ==> IsDataFile(r[k])
  {
    if hrefs == [] then []
    else
      var last := hrefs[|hrefs| - 1];
      DataFileHrefs(hrefs[..|hrefs| - 1]) +
        if IsDataFile(HrefOrEmpty(last)) then [last.value] else []
  }

  /** Filtering a concatenation filters each part and keeps them in order. */
  lemma {:induction false} DataFileHrefsAppend(a: seq<Option<string>>, b: seq<Option<string>>)
    ensures DataFileHrefs(a + b) == DataFileHrefs(a) + DataFileHrefs(b)
    decreases |b|
  {
    if b == [] {
      assert a + b == a;
    } else {
      var b' := b[..|b| - 1];
      var last := b[|b| - 1];
      var kept := if IsDataFile(HrefOrEmpty(last)) then [last.value] else [];
      assert (a + b)[..|a + b| - 1] == a + b';
      assert (a + b)[|a + b| - 1] == last;
      assert DataFileHrefs(a + b) == DataFileHrefs(a + b') + kept;
      assert DataFileHrefs(b) == DataFileHrefs(b') + kept;
      DataFileHrefsAppend(a, b');
    }
  }

  /**
   * A name is listed exactly when some anchor has it as its href and it ends in a recognised
   * suffix; anchors without an href never contribute.
   */
  lemma {:induction false} DataFileHrefsMembers(hrefs: seq<Option<string>>, name: string)
    ensures name in DataFileHrefs(hrefs) <==> Some(name) in hrefs && IsDataFile(name)
    decreases |hrefs|
  {
    if hrefs != [] {
      var init := hrefs[..|hrefs| - 1];
      assert hrefs == init + [hrefs[|hrefs| - 1]];
      DataFileHrefsMembers(init, name);
    }
  }

  /** Filtering one more anchor appends its href when that ends in a recognised suffix. */
  lemma DataFileHrefsSnoc(hrefs: seq<Option<string>>, href: Option<string>)
    ensures DataFileHrefs(hrefs + [href]) ==
      DataFileHrefs(hrefs) + if IsDataFile(HrefOrEmpty(href)) then [href.value] else []
  {
    assert (hrefs + [href])[..|hrefs|] == hrefs;
  }

  /**
   * The suffix test on sample names: names ending in ".sav" or ".cdf" are data
   * files, a name ending in ".jpg" is not, and neither is the "" a bare anchor reads as.
   */
  lemma ExampleSuffixes(a: string, b: string, c: string)
    requires EndsWith(a, ".sav") && EndsWith(b, ".cdf") && EndsWith(c, ".jpg")
    ensures IsDataFile(a) && IsDataFile(b) && !IsDataFile(c) && !IsDataFile(HrefOrEmpty(None))
  {
    assert EndsWith(a, ValidExtensions[0]);
    assert EndsWith(b, ValidExtensions[1]);
    forall i | 0 <= i < |ValidExtensions|
      ensures !EndsWith(c, ValidExtensions[i])
    {
      assert c[|c| - 4..] == ".jpg";
    }
  }

  /**
   * Anchors a (a data file, such as "a.sav"), b (a data file, such as "b.cdf"), c (not one,
   * such as "c.jpg") and a bare anchor list exactly a and b, in that order.
   */
  lemma ExtensionFilterExample(a: string, b: string, c: string)
    requires IsDataFile(a) && IsDataFile(b) && !IsDataFile(c) && !IsDataFile(HrefOrEmpty(None))
    ensures DataFileHrefs([Some(a), Some(b), Some(c), None]) == [a, b]
  {
    var s1: seq<Option<string>> := [Some(a)];
    var s2 := s1 + [Some(b)];
    var s3 := s2 + [Some(c)];
    var s4 := s3 + [None];
    DataFileHrefsSnoc([], Some(a));
    assert [] + [Some(a)] == s1;
    DataFileHrefsSnoc(s1, Some(b));
    DataFileHrefsSnoc(s2, Some(c));
    DataFileHrefsSnoc(s3, None);
    assert s4 == [Some(a), Some(b), Some(c), None];
  }

  /**
   * Status 401 or 403 gives the auth outcome before the body is looked at; any other status,
   * error pages included, is parsed; an exception becomes the error outcome with its
   * message, never a file list.
   */
  function ListRemoteFiles(response: Response): (listing: Listing)
    ensures listing.ListAuth? <==> response.Http? && response.status in {401, 403}
    ensures listing.ListError? <==> response.Raised?
    ensures listing.ListError? ==> listing.message == response.message
    ensures listing.ListOk? ==> listing.files == DataFileHrefs(response.hrefs)
  {
    match response
    case Raised(message) => ListError(message)
    case Http(status, hrefs) =>
      if status == 401 || status == 403 then ListAuth else ListOk(DataFileHrefs(hrefs))
  }
}
