# URL shortening service, modelled in Dafny

A model of `URLShorteningService` (`src/main/java/org/example/URLShorteningService.java`),
a single-class, in-memory URL shortener. The class keeps a `HashMap` from short key
(alias) to a `URLMapping` record (original URL, absolute expiry time in milliseconds),
and offers:

- **shorten**: draw a 6-character key from a 62-symbol alphanumeric alphabet, store the
  URL under it until `now + EXPIRY_TIME_MILLIS` (overwriting any earlier mapping for
  that key), and return `"http://short.url/" + key`;
- **resolve**: strip the base URL from the short URL with `String.replace`, answer the
  stored URL if its mapping is still live (`expiryTime > now`), otherwise remove
  whatever is stored under the key and answer `null` (here `NotFound`);
- **cleanup**: the periodic pass that removes every entry with `expiryTime <= now`.

Modules, one per concern of the class:

| file | module | contents |
|---|---|---|
| mapping.dfy | `Mapping` | `URLMapping`, the TTL constant, the live and expired tests |
| short_key.dfy | `ShortKey` | the alphabet, the key a sequence of random draws yields (`KeyOf`) and its inverse (`DrawsOf`) |
| short_url.dfy | `ShortUrl` | `Render`, `RemoveAll` (Java's `replace(target, "")`), `ExtractShortKey`, the round trip |
| url_store.dfy | `UrlStore` | the store as a value: `Insert`, `Lookup`, `AfterLookup`, `Sweep`, and lemmas relating them |
| service.dfy | `Service` | the class `URLShorteningService` with its `urlStore` field and the methods that update it |
| history.dfy | `History` | sequences of requests and what they guarantee about a short URL handed out earlier |

The clock (`System.currentTimeMillis()`) is the parameter `now`, and the secure random
source is the sequence `draws` of indices it would return, each in `[0, 62)`.

The model follows the code as written: resolve does not reject a string in which the base URL does not occur (it is
looked up as a key as it stands, `ShortUrl.ExtractWithoutPrefix`; a string that holds the base
URL anywhere, not only at the front, loses every occurrence of it), and the time-to-live is the
constant 10 that the code uses, not the 24 hours its comment names.

## Model

| member | source | states |
|---|---|---|
| Mapping.NewMapping | src/main/java/org/example/URLShorteningService.java:35 | the stored mapping keeps the original URL and is live at exactly the instants before creation time + 10 ms |
| Mapping.IsExpired | src/main/java/org/example/URLShorteningService.java:55-77 | the cleanup's test `expiryTime <= now` is the exact negation of resolve's liveness test `expiryTime > now`: the two partition the mappings |
| Mapping.ExpiredStaysExpired | src/main/java/org/example/URLShorteningService.java:55 | as the clock advances an expired mapping stays expired, and a live one was live earlier |
| ShortKey.AlphabetLayout | src/main/java/org/example/URLShorteningService.java:18 | the alphabet is A–Z, then a–z, then 0–9, by code point at every index |
| ShortKey.AlphabetAt | src/main/java/org/example/URLShorteningService.java:18 | every alphabet symbol is a letter or digit and `IndexOf` gives back its position |
| ShortKey.CharAtIndexOf | src/main/java/org/example/URLShorteningService.java:18 | every letter or digit occurs in the alphabet, at the position `IndexOf` gives |
| ShortKey.InAlphabetIff | src/main/java/org/example/URLShorteningService.java:18 | a character is in `ALPHANUMERIC_CHARS` exactly when it is an ASCII letter or digit |
| ShortKey.KeyOf | src/main/java/org/example/URLShorteningService.java:90-93 | one character per draw, the alphabet symbol at the drawn index |
| ShortKey.KeyOfIsAlphanumeric | src/main/java/org/example/URLShorteningService.java:91-92 | every generated key consists of letters and digits only |
| ShortKey.DrawsOfKeyOf | src/main/java/org/example/URLShorteningService.java:89-94 | the draws can be read back from the key, so distinct draws give distinct keys |
| ShortKey.KeyOfDrawsOf | src/main/java/org/example/URLShorteningService.java:89-94 | every alphanumeric string is the key of exactly the draws `DrawsOf` gives: draws and keys are in one-to-one correspondence |
| ShortUrl.Render | src/main/java/org/example/URLShorteningService.java:32 | the short URL begins with `"http://short.url/"` and the rest of it is exactly the key |
| ShortUrl.RemoveAll | src/main/java/org/example/URLShorteningService.java:100 | `replace(target, "")` never lengthens a string and leaves one shorter than the target as it is |
| ShortUrl.ExtractShortKey | src/main/java/org/example/URLShorteningService.java:98-101 | the extracted key is never longer than the short URL |
| ShortUrl.RemoveAllAbsent | src/main/java/org/example/URLShorteningService.java:100 | a string in which the target does not occur comes back unchanged |
| ShortUrl.AlphanumericLacksBase | src/main/java/org/example/URLShorteningService.java:10-18 | no alphanumeric string contains `"http://short.url/"` (it holds ':') |
| ShortUrl.ExtractRenderAnyKey | src/main/java/org/example/URLShorteningService.java:32 | extracting the key from `BASE_URL + key` gives `key` back whenever `key` does not contain the base URL |
| ShortUrl.ExtractRender | src/main/java/org/example/URLShorteningService.java:100 | the round trip `extractShortKey(BASE_URL + k) == k` for every alphanumeric key |
| ShortUrl.ExtractWithoutPrefix | src/main/java/org/example/URLShorteningService.java:100 | a string without the base URL is taken as a key unchanged (no malformed-input error) |
| ShortUrl.ExtractRenderBaseKey | src/main/java/org/example/URLShorteningService.java:100 | the round trip fails for a key that is itself the base URL: nothing is recovered |
| UrlStore.Insert | src/main/java/org/example/URLShorteningService.java:35 | `put` maps the key to (originalURL, now + 10), overwriting, adds only that key, and keeps every other entry's value |
| UrlStore.Lookup | src/main/java/org/example/URLShorteningService.java:52-56 | resolve finds a target exactly when a mapping is stored under the key and the cleanup would not remove it; the target is that mapping's URL |
| UrlStore.AfterLookup | src/main/java/org/example/URLShorteningService.java:55-59 | after resolve the key is present exactly when it was found; no other key is removed and no value changes |
| UrlStore.Sweep | src/main/java/org/example/URLShorteningService.java:73-84 | the cleanup keeps an entry if and only if `expiryTime > now`, with its value unchanged |
| UrlStore.ExpiredKeys | src/main/java/org/example/URLShorteningService.java:77 | the expired set is the stored keys whose mapping is not live |
| UrlStore.SweepSize | src/main/java/org/example/URLShorteningService.java:75-83 | the cleanup shrinks the store by exactly the number of expired entries |
| UrlStore.SweepIdempotent | src/main/java/org/example/URLShorteningService.java:75-83 | after a cleanup at `now` nothing expired at `now` remains, so a second cleanup at `now` changes nothing |
| UrlStore.SweepLater | src/main/java/org/example/URLShorteningService.java:26 | two periodic cleanups leave what the later one alone would leave |
| UrlStore.LookupAfterSweep | src/main/java/org/example/URLShorteningService.java:55 | the cleanup never changes what resolve answers at the same time or later |
| UrlStore.AfterLookupThenSweep | src/main/java/org/example/URLShorteningService.java:59 | lazy removal by resolve and eager removal by cleanup commute: removing an already removed key is a no-op |
| UrlStore.LookupRepeated | src/main/java/org/example/URLShorteningService.java:51-60 | resolving the same key twice at one instant gives the same answer, and the second call leaves the store unchanged |
| UrlStore.LookupAbsent | src/main/java/org/example/URLShorteningService.java:57-60 | resolving a key never stored answers NotFound and has no side effect |
| UrlStore.LookupAfterInsert | src/main/java/org/example/URLShorteningService.java:29-61 | resolving right after shortening finds the URL exactly before creation time + 10, and otherwise removes the key |
| Service.URLShorteningService.constructor | src/main/java/org/example/URLShorteningService.java:14 | a new service starts with an empty store |
| Service.URLShorteningService.GenerateShortKey | src/main/java/org/example/URLShorteningService.java:87-95 | the key has length 6, every character is in `ALPHANUMERIC_CHARS`, and it is `KeyOf(draws)` |
| Service.URLShorteningService.ShortenURL | src/main/java/org/example/URLShorteningService.java:29-37 | returns `BASE_URL + key` for the generated key and leaves the store as `Insert` says |
| Service.URLShorteningService.ResolveURL | src/main/java/org/example/URLShorteningService.java:49-62 | answers as `Lookup` on the extracted key and leaves the store as `AfterLookup` says |
| Service.URLShorteningService.CleanupExpiredEntries | src/main/java/org/example/URLShorteningService.java:73-84 | the entry-by-entry removal pass leaves exactly `Sweep` of the old store |
| Service.Demonstrate | src/main/java/org/example/URLShorteningService.java:121-132 | a new service shortens a URL to `BASE_URL` + 6 characters, and resolving it answers the URL exactly before the TTL has elapsed |
| History.RunKeepsMapping | src/main/java/org/example/URLShorteningService.java:51-60 | without a shorten reusing the key, the stored mapping is never replaced, and while live it is never removed |
| History.ShortenThenResolve | src/main/java/org/example/URLShorteningService.java:29-61 | a short URL resolved at t' after any requests that do not reuse its key answers the URL iff t' is before creation + TTL, NotFound otherwise |
| History.DistinctShortensAllResolvable | src/main/java/org/example/URLShorteningService.java:29-37 | shorten requests with distinct keys are all resolvable afterwards while live: no write is lost |

## Left out

- The executor services (`executorService`, `scheduler`, lines 21-22 and 40-46, 64-70): each `Callable` body is a direct method call; the `InterruptedException | ExecutionException` path that returns `null` cannot arise for the non-null inputs the model admits (an exception thrown inside the `Callable` is the only way to reach it sequentially).
- The fixed-rate schedule of the cleanup (line 26): `CleanupExpiredEntries` is called with the time it runs at; when it runs is up to the caller (`History.Request.Cleanup`).
- Concurrency: the source touches a plain `HashMap` from pool threads and the scheduler without synchronisation; the model runs requests one at a time.
- `SecureRandom` (lines 16, 91): replaced by the sequence of drawn indices; its uniformity is not modelled beyond the one-to-one correspondence between draws and keys.
- `System.currentTimeMillis()`: one reading per operation. In the source the cleanup's `removeIf` reads the clock once per entry, so a slow pass may use slightly later times for later entries; the model uses one `now` for the whole pass.
- Iteration order of `removeIf`: the loop visits keys in an arbitrary order; the result does not depend on it.
- Java `long` arithmetic: `now + EXPIRY_TIME_MILLIS` is an unbounded integer; overflow near `Long.MAX_VALUE` is not modelled.
- `null` arguments and values: Dafny strings are never null, so `shortenURL(null)` (which stores a null target that resolve then cannot tell from NotFound) and `resolveURL(null)` are not modelled; for the latter `replace` throws a `NullPointerException` inside the `Callable`, `future.get()` rethrows it as an `ExecutionException`, and the caller gets `null` after a printed stack trace.
- Logging with `System.out.println` (lines 79, 127, 131) and `e.printStackTrace()`: output only.
- `ShortKey.ALPHANUMERIC_CHARS` is written as the concatenation of three literals; its value is that of line 18.
- `ShortUrl.RemoveAll` models `String.replace` only for a non-empty target, the only way the source calls it.
