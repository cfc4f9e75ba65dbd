/**
 * The address bar of the simulated Firefox window (firefox.js): on Enter
 * the typed address gets a scheme unless it already starts with `http`.
 */
module Browser {
  import opened Text

  /** The address the frame is pointed at: `http://` is put in front of anything not starting with `http`. */
  function Normalize(url: string): (r: string)
    ensures StartsWith(r, "http")
    ensures StartsWith(url, "http") ==> r == url
    ensures !StartsWith(url, "http") ==> r == "http://" + url && r[|"http://"|..] == url
  {
    if StartsWith(url, "http") then url else "http://" + url
  }

  /** Normalizing an address a second time changes nothing. */
  lemma NormalizeIdempotent(url: string)
    ensures Normalize(Normalize(url)) == Normalize(url)
  {
  }

  /** An address with `https` kept as typed; any other gets plain `http://`, never `https://`. */
  lemma SchemeKept(url: string)
    ensures StartsWith(url, "https") ==> Normalize(url) == url
    ensures !StartsWith(url, "http") ==> !StartsWith(Normalize(url), "https")
  {
    if StartsWith(url, "https") {
      assert url[..4] == url[..5][..4];
    }
    if !StartsWith(url, "http") {
      assert Normalize(url)[4] == ':';
    }
  }
}
