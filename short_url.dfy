/**
 * Rendering a key as a short URL and recovering the key from a short URL.
 * Recovery is not a prefix check: it deletes every occurrence of the base
 * URL anywhere in its argument, as Java's String.replace(target, "") does.
 */
module ShortUrl {
  import opened ShortKey

  /** The fixed prefix of every short URL. */
  const BASE_URL: string := "http://short.url/"

  /** The short URL handed back for `key`. */
  function Render(key: string): (shortURL: string)
    ensures OccursAt(shortURL, BASE_URL, 0)
    ensures shortURL[|BASE_URL|..] == key
  {
    BASE_URL + key
  }

  /** `pattern` appears in `s` starting at position `i`. */
  predicate OccursAt(s: string, pattern: string, i: int)
  {
    0 <= i && i + |pattern| <= |s| && s[i..i + |pattern|] == pattern
  }

  predicate Occurs(s: string, pattern: string)
  {
    exists i | 0 <= i <= |s| :: OccursAt(s, pattern, i)
  }

  /**
   * `s.replace(target, "")` for a non-empty target: scanning from the left,
   * each occurrence of `target` is dropped and the scan resumes after it, so
   * the occurrences removed never overlap; every other character is kept.
   */
  function RemoveAll(s: string, target: string): (r: string)
    requires |target| > 0
    ensures |r| <= |s|
    ensures |s| < |target| ==> r == s
    decreases |s|
  {
    if |s| < |target| then s
    else if s[..|target|] == target then RemoveAll(s[|target|..], target)
    else [s[0]] + RemoveAll(s[1..], target)
  }

  /** The key resolve looks up for `shortURL` (line 100 of the source). */
  function ExtractShortKey(shortURL: string): (key: string)
    ensures |key| <= |shortURL|
  {
    RemoveAll(shortURL, BASE_URL)
  }

  /** A string in which `target` does not occur comes back unchanged. */
  lemma {:induction false} RemoveAllAbsent(s: string, target: string)
    requires |target| > 0
    requires !Occurs(s, target)
    ensures RemoveAll(s, target) == s
    decreases |s|
  {
    if |s| >= |target| {
      assert !OccursAt(s, target, 0);
      assert s[..|target|] != target;
      if Occurs(s[1..], target) {
        var i :| 0 <= i <= |s[1..]| && OccursAt(s[1..], target, i);
        assert s[1..][i..i + |target|] == s[i + 1..i + 1 + |target|];
        assert OccursAt(s, target, i + 1);
      }
      RemoveAllAbsent(s[1..], target);
    }
  }

  /** No alphanumeric string contains the base URL, which holds ':' and '/'. */
  lemma AlphanumericLacksBase(key: string)
    requires IsAlphanumeric(key)
    ensures !Occurs(key, BASE_URL)
  {
    forall i | 0 <= i <= |key| ensures !OccursAt(key, BASE_URL, i) {
      if i + |BASE_URL| <= |key| {
        assert key[i..i + |BASE_URL|][4] == key[i + 4];
        assert IsAlphanumericChar(key[i + 4]);
        assert BASE_URL[4] == ':';
      }
    }
  }

  /** Rendering then extracting gives back any key that does not itself
      contain the base URL. */
  lemma ExtractRenderAnyKey(key: string)
    requires !Occurs(key, BASE_URL)
    ensures ExtractShortKey(Render(key)) == key
  {
    var url := Render(key);
    assert url[..|BASE_URL|] == BASE_URL;
    assert url[|BASE_URL|..] == key;
    RemoveAllAbsent(key, BASE_URL);
  }

  /** The round trip for the keys the generator produces. */
  lemma ExtractRender(key: string)
    requires IsAlphanumeric(key)
    ensures ExtractShortKey(Render(key)) == key
  {
    AlphanumericLacksBase(key);
    ExtractRenderAnyKey(key);
  }

  /** A string that does not carry the base URL is taken as a key as it
      stands: there is no malformed-input error. */
  lemma ExtractWithoutPrefix(s: string)
    requires !Occurs(s, BASE_URL)
    ensures ExtractShortKey(s) == s
  {
    RemoveAllAbsent(s, BASE_URL);
  }

  /** The hypothesis of ExtractRenderAnyKey is needed: a key that is itself
      the base URL renders to a URL from which nothing is recovered. */
  lemma ExtractRenderBaseKey()
    ensures ExtractShortKey(Render(BASE_URL)) == ""
  {
    var url := Render(BASE_URL);
    assert url[..|BASE_URL|] == BASE_URL;
    assert url[|BASE_URL|..] == BASE_URL;
    assert RemoveAll(url, BASE_URL) == RemoveAll(BASE_URL, BASE_URL);
    assert BASE_URL[..|BASE_URL|] == BASE_URL;
    assert RemoveAll(BASE_URL, BASE_URL) == RemoveAll("", BASE_URL);
  }
}
