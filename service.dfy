/**
 * URLShorteningService with its thread pools removed: each Callable body runs as
 * a direct method call, the clock reading is the parameter `now`, and the
 * secure random source is the sequence of indices `draws` it would yield.
 */
module Service {
  import opened Mapping
  import opened ShortKey
  import opened ShortUrl
  import opened UrlStore

  class URLShorteningService {
    /** Alias to (original URL, expiry time). */
    var urlStore: Store

    constructor ()
      ensures urlStore == map[]
    {
      urlStore := map[];
    }

    /** Builds a key one character at a time, each the alphabet symbol at
        the next drawn index. */
    method GenerateShortKey(draws: seq<int>) returns (shortKey: string)
      requires ValidDraws(draws)
      ensures |shortKey| == SHORT_KEY_LENGTH
      ensures forall k :: 0 <= k < |shortKey| ==> shortKey[k] in ALPHANUMERIC_CHARS
      ensures shortKey == KeyOf(draws)
    {
      shortKey := "";
      var i := 0;
      while i < SHORT_KEY_LENGTH
        invariant 0 <= i <= SHORT_KEY_LENGTH
        invariant shortKey == KeyOf(draws[..i])
      {
        var randomIndex := draws[i];
        shortKey := shortKey + [ALPHANUMERIC_CHARS[randomIndex]];
        i := i + 1;
      }
      assert draws[..i] == draws;
    }

    /** Generates a key, stores the URL under it until now + TTL, and
        returns the short URL for the key. */
    method ShortenURL(originalURL: string, draws: seq<int>, now: int) returns (shortURL: string)
      requires ValidDraws(draws)
      modifies this
      ensures shortURL == Render(KeyOf(draws))
      ensures urlStore == Insert(old(urlStore), KeyOf(draws), originalURL, now)
    {
      var shortKey := GenerateShortKey(draws);
      shortURL := BASE_URL + shortKey;
      urlStore := urlStore[shortKey := URLMapping(originalURL, now + EXPIRY_TIME_MILLIS)];
    }

    /** Answers with the target of a live mapping; otherwise removes
        whatever is stored under the extracted key and answers NotFound. */
    method ResolveURL(shortURL: string, now: int) returns (result: Resolution)
      modifies this
      ensures result == Lookup(old(urlStore), ExtractShortKey(shortURL), now)
      ensures urlStore == AfterLookup(old(urlStore), ExtractShortKey(shortURL), now)
    {
      var shortKey := ExtractShortKey(shortURL);
      if shortKey in urlStore && urlStore[shortKey].expiryTime > now {
        result := Found(urlStore[shortKey].originalURL);
      } else {
        urlStore := urlStore - {shortKey};
        result := NotFound;
      }
    }

    /** The removeIf pass over the entry set: each entry is visited once and
        removed when its expiry time is not after `now`. */
    method CleanupExpiredEntries(now: int)
      modifies this
      ensures urlStore == Sweep(old(urlStore), now)
    {
      var pending := urlStore.Keys;
      while pending != {}
        invariant pending <= old(urlStore).Keys
        invariant forall k :: k in urlStore <==> k in old(urlStore) && (k in pending || IsLive(old(urlStore)[k], now))
        invariant forall k :: k in urlStore ==> urlStore[k] == old(urlStore)[k]
        decreases pending
      {
        var k :| k in pending;
        var isExpired := urlStore[k].expiryTime <= now;
        if isExpired {
          urlStore := urlStore - {k};
        }
        pending := pending - {k};
      }
      assert urlStore.Keys == Sweep(old(urlStore), now).Keys;
    }
  }

  /** The demonstration run: a fresh service shortens one URL at time
      `shortenedAt` and resolves the short URL it got at `resolvedAt`. */
  method Demonstrate(draws: seq<int>, shortenedAt: int, resolvedAt: int)
    returns (shortURL: string, resolved: Resolution)
    requires ValidDraws(draws)
    ensures |shortURL| == |BASE_URL| + SHORT_KEY_LENGTH && shortURL[..|BASE_URL|] == BASE_URL
    ensures resolved ==
      if resolvedAt < shortenedAt + EXPIRY_TIME_MILLIS then Found("https://www.example.com") else NotFound
  {
    var service := new URLShorteningService();
    var originalURL := "https://www.example.com";
    shortURL := service.ShortenURL(originalURL, draws, shortenedAt);
    KeyOfIsAlphanumeric(draws);
    ExtractRender(KeyOf(draws));
    resolved := service.ResolveURL(shortURL, resolvedAt);
  }
}
