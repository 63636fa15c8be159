/**
 * The string handling behind deep links (js/main.js:76, 96-99): the URL a panel
 * is pushed at, what `window.location.hash` reads back from such a URL, and
 * `String.prototype.replace` with a string pattern, which removes the marker.
 */
module Location {
  import opened Wrappers

  /** The marker between the page path and a panel id in a deep link. */
  const Marker: string := "#!/"

  /** `pat` occurs in `s` starting at index `j`. */
  predicate OccursAt(s: string, pat: string, j: int) {
    0 <= j && j + |pat| <= |s| && s[j..j + |pat|] == pat
  }

  /** The first index at or after `from` where `pat` occurs in `s`, if any. */
  function IndexOfFrom(s: string, pat: string, from: nat): (r: Option<nat>)
    ensures r.Some? ==> from <= r.value && OccursAt(s, pat, r.value)
    ensures r.Some? ==> forall j :: from <= j < r.value ==> !OccursAt(s, pat, j)
    ensures r.None? ==> forall j :: from <= j ==> !OccursAt(s, pat, j)
    decreases |s| - from
  {
    if from + |pat| > |s| then None
    else if s[from..from + |pat|] == pat then Some(from)
    else IndexOfFrom(s, pat, from + 1)
  }

  /** `s.indexOf(pat)`: the first occurrence of `pat` in `s`, `None` for -1. */
  function IndexOf(s: string, pat: string): (r: Option<nat>)
    ensures r.Some? ==> OccursAt(s, pat, r.value)
    ensures r.Some? ==> forall j :: 0 <= j < r.value ==> !OccursAt(s, pat, j)
    ensures r.None? ==> forall j :: !OccursAt(s, pat, j)
  {
    IndexOfFrom(s, pat, 0)
  }

  /**
   * `s.replace(pat, rep)` with a string pattern and a replacement without `$`
   * (whose `$&`, `$$` and similar patterns are not modelled): only the first
   * occurrence is replaced.
   */
  function ReplaceFirst(s: string, pat: string, rep: string): (r: string)
    requires '$' !in rep
    ensures IndexOf(s, pat).None? ==> r == s
    ensures IndexOf(s, pat).Some? ==> |r| == |s| - |pat| + |rep|
    ensures IndexOf(s, pat).Some? ==>
      var i := IndexOf(s, pat).value;
      r[..i] == s[..i] && r[i..i + |rep|] == rep && r[i + |rep|..] == s[i + |pat|..]
  {
    match IndexOf(s, pat)
    case None => s
    case Some(i) => s[..i] + rep + s[i + |pat|..]
  }

  /**
   * The characters a browser keeps as they are in a URL fragment: printable
   * ASCII other than space, `"`, `<`, `>` and backtick. Every other character
   * is percent-encoded by the fragment percent-encode set of the WHATWG URL
   * Standard (section 1.3).
   */
  predicate FragmentSafe(id: string) {
    forall i :: 0 <= i < |id| ==> '!' <= id[i] <= '~' && id[i] !in {'"', '<', '>', '`'}
  }

  /** When the path holds no `#`, the first `#` of `path + '#!/' + id` is the marker's. */
  lemma FirstHashAfterPath(pathname: string, id: string)
    requires '#' !in pathname
    ensures IndexOf(pathname + Marker + id, "#") == Some(|pathname|)
  {
    var url := pathname + Marker + id;
    assert OccursAt(url, "#", |pathname|);
    forall j | 0 <= j < |pathname| ensures !OccursAt(url, "#", j) {
      assert url[j] == pathname[j];
      assert url[j..j + 1] == [url[j]];
    }
  }

  /** `window.location.pathname + '#!/' + id` (line 76): the fragment starts right after the path. */
  function PageUrl(pathname: string, id: string): (url: string)
    ensures |url| == |pathname| + |Marker| + |id|
    ensures url[..|pathname|] == pathname
    ensures '#' !in pathname ==> IndexOf(url, "#") == Some(|pathname|)
    ensures url[|pathname|..] == Marker + id
  {
    if '#' !in pathname then FirstHashAfterPath(pathname, id); pathname + Marker + id
    else pathname + Marker + id
  }

  /**
   * `window.location.hash` of a URL: from the first `#` to the end, or the
   * empty string when there is no fragment or the fragment is empty.
   */
  function LocationHash(url: string): (hash: string)
    ensures hash != [] ==> hash[0] == '#' && 1 < |hash| <= |url|
    ensures '#' !in url ==> hash == []
    ensures IndexOf(url, "#").None? ==> hash == []
    ensures IndexOf(url, "#").Some? && IndexOf(url, "#").value + 1 == |url| ==> hash == []
    ensures IndexOf(url, "#").Some? && IndexOf(url, "#").value + 1 < |url| ==>
      hash == url[IndexOf(url, "#").value..]
  {
    match IndexOf(url, "#")
    case None => []
    case Some(i) => if i + 1 == |url| then [] else url[i..]
  }

  /** `hash.replace('#!/', '')` (line 99): the panel id the page load asks for. */
  function IdFromHash(hash: string): (id: string)
    ensures |id| <= |hash|
    ensures IndexOf(hash, Marker) == Some(0) ==> id == hash[|Marker|..]
    ensures IndexOf(hash, Marker).None? ==> id == hash
  {
    ReplaceFirst(hash, Marker, "")
  }

  /** Stripping the marker from the fragment of a pushed URL gives back the id. */
  lemma StripMarker(id: string)
    ensures IdFromHash(Marker + id) == id
  {
  }

  /**
   * The deep-link round trip: when the page path holds no `#` and the id only
   * has characters the browser leaves unencoded in a fragment, the hash of the
   * URL pushed for `id` is `'#!/' + id`, it is non-empty, and stripping the
   * marker yields `id` again.
   */
  lemma DeepLinkRoundTrip(pathname: string, id: string)
    requires '#' !in pathname && FragmentSafe(id)
    ensures LocationHash(PageUrl(pathname, id)) == Marker + id
    ensures |LocationHash(PageUrl(pathname, id))| > 0
    ensures IdFromHash(LocationHash(PageUrl(pathname, id))) == id
  {
    StripMarker(id);
  }

  /** A hash without the marker is passed on unchanged, so no panel id is derived from it. */
  lemma NoMarkerKeepsHash(hash: string)
    requires forall j :: !OccursAt(hash, Marker, j)
    ensures IdFromHash(hash) == hash
  {
  }
}
