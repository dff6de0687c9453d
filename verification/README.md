# Hong Kong weather proxy: response cache, feed reshaping and password records

This project models, in Dafny, the logic of a small FastAPI service.
The service relays the Hong Kong Observatory open-data feed and stores salted password records.
It covers two pieces:

- **The response cache of `main.py`.** `get_hko_data` serves a cached feed document while it is less than 300 seconds old. Otherwise it fetches a new one and stores it with the time of the call. A failed fetch becomes a 503 and is not stored. `clear_cache` empties the cache, and `cache_status` reports its size and keys in insertion order. On top of the cache, the model has three handlers that reshape a feed document:
  - the case-insensitive station lookup of `get_station_temperature`, with its 404 that lists every station;
  - the rainfall report of `get_rainfall_data`, which lists every station and, separately, those with rain;
  - the forecast of `get_forecast`, cut to the first `days` days when 1 <= `days` <= 9.
- **The password records of `auth.py`.** `hash_password` writes the Base64 text of `salt ++ key`. The key is PBKDF2-HMAC-SHA256 of the UTF-8 password under a 32-byte salt, with 100000 iterations. `verify_password` decodes the record, splits it at byte 32, derives the key again and compares. It answers `false`, never an exception, for records that do not decode.

Modules:

| file | module | content |
|---|---|---|
| wrappers.dfy | `Wrappers` | `Option` (with `GetOr`, Python's `dict.get` default) and `Result` |
| http_errors.dfy | `HttpErrors` | the two `HTTPException`s the handlers raise, with their status codes |
| pyslice.dfy | `PySlice` | Python's clamping slices `s[:n]` and `s[n:]` |
| response_cache.dfy | `ResponseCache` | `weather_cache`, `get_hko_data`, `clear_cache`, `cache_status` |
| weather_feed.dfy | `WeatherFeed` | feed documents, the three handlers and their reshaping |
| bytes.dfy | `Bytes` | the byte type |
| utf8.dfy | `Utf8` | `str.encode('utf-8')` and its injectivity |
| base64.dfy | `Base64` | `b64encode` and the non-validating `b64decode` (section 4 of RFC 4648), with the round trip |
| auth.dfy | `Auth` | `hash_password`, `verify_password` |

Time, the network and randomness are parameters:

- `now` is the value `time.time()` returned when `get_hko_data` was entered.
- A fetch is given by its outcome: a decoded document, or the `RequestException` that leads to a 503.
- The salt that `os.urandom(32)` would draw is an argument of `HashPassword`.
- PBKDF2 is a function-valued parameter `kdf`. The lemma that needs its 32-byte output takes it as a precondition.

The cache is a sequence of slots with distinct keys. An overwrite keeps the slot's position and a new key is appended, so the order of the keys is the order `list(weather_cache.keys())` reports.

The Base64 decoder follows CPython's `binascii.a2b_base64` in non-strict mode, which is what `base64.b64decode(s)` calls:

- Text that is not ASCII fails, because it cannot be encoded as ASCII.
- Characters outside the alphabet are skipped.
- A `=` ends the input once it completes the padding of a quantum holding two or three data characters.
- Leftover bits of the last quantum are dropped.
- A quantum still open at the end of the text is an error.

Every failure is `None`, and `verify_password` turns it into `false`.

`main.py` fixes the lifetime of a cache entry at `CACHE_DURATION = 300` seconds, which is the constant `CacheDuration`. `cache_status` lists the dict's keys in insertion order, each once.

## Model

| member | source | states |
|---|---|---|
| ResponseCache.Find | main.py:23-24 | the entry stored under a key, absent exactly when the key is not in the cache |
| ResponseCache.Put | main.py:38 | after the store the key maps to the new entry and every other key to what it mapped to before; an existing key keeps its place, a new key goes last |
| ResponseCache.GetHkoData | main.py:16-42 | no fetch happens exactly when the entry is younger than 300 s (strict); a hit returns the cached payload and leaves the cache as it was; a successful fetch stores `(now, payload)` under the key, returns the payload and leaves other keys alone; a failed fetch is a 503 and leaves the cache as it was |
| ResponseCache.ClearCache | main.py:206-214 | afterwards no key has an entry, and the count reported is the number of keys before |
| ResponseCache.CacheStatus | main.py:216-222 | the item count equals the number of keys listed, a key is listed exactly when it has an entry, and no key is listed twice |
| ResponseCache.FreshHitIgnoresFetch | main.py:23-26 | while the entry is fresh, the whole effect of the call is the same whatever the network would have answered |
| ResponseCache.ExpiredEntryIsMiss | main.py:14-26 | an entry aged exactly 300 s or more is refetched: the comparison is strict |
| ResponseCache.RepeatWithinWindowHits | main.py:20-40 | after a successful fetch, a second call for the same key less than 300 s later does not fetch, returns the same payload and leaves the cache unchanged |
| ResponseCache.RefetchAfterExpiry | main.py:25-40 | after expiry a successful fetch replaces the entry with the new payload stamped with the time of the call |
| ResponseCache.FailedFetchKeepsStaleEntry | main.py:32-42 | a failed fetch on an expired entry raises 503 and every key, the stale entry included, still maps to what it did |
| ResponseCache.KeysOnlyGrow | main.py:37-38 | a call never drops or reorders keys: the old keys are a prefix of the new ones, and at most the requested key is added |
| ResponseCache.ClearReportsStatusCount | main.py:206-222 | `items_cleared` equals the `cached_items` reported just before, and the status just after is empty |
| ResponseCache.ClearForcesRefetch | main.py:206-214 | after clearing, every data type is fetched again |
| WeatherFeed.FirstMatch | main.py:127-134 | the position found holds a station matching the query case-insensitively, and no earlier station matches; no position is found only when no station matches |
| WeatherFeed.LookupStation | main.py:117-144 | the lookup succeeds exactly when some station matches, and then returns the reading of the first one; otherwise it is a 404 naming the query and listing every station's place in feed order |
| WeatherFeed.LookupIgnoresCase | main.py:125-128 | two queries equal after lower-casing succeed together, and then return the same reading (a 404 repeats the query as typed) |
| WeatherFeed.RainingPlaces | main.py:152-160 | no more raining entries than stations, and every one with rainfall above zero |
| WeatherFeed.RainingPlacesIsSelection | main.py:152-160 | the raining entries are exactly the entries of the stations whose `max` (0 when missing) is positive, in feed order: a strictly increasing index list picks them, and a station is picked exactly when it has rain |
| WeatherFeed.RainfallOf | main.py:146-175 | `all_stations` has one entry per input item, in order; `total_stations` is the input length, and `stations_with_rain` is the length of `raining_places` and at most `total_stations` |
| WeatherFeed.RainfallListsRainingStations | main.py:152-166 | the reply's `raining_places` is the order-preserving subsequence of the stations with rain |
| WeatherFeed.SelectDays | main.py:184-186 | for a day count from 1 to 9 the first `min(days, n)` days, and all days for no count, 0, a negative count or one above 9 |
| WeatherFeed.ForecastOf | main.py:177-204 | `days_count` equals the number of days in the reply, which is `min(days, n)` for a count from 1 to 9 and `n` otherwise; each reply day summarises the input day at the same position |
| WeatherFeed.GetStationTemperature | main.py:117-144 | the cache afterwards is the one `get_hko_data` leaves for `rhrread`, so only that entry can change; the reply is a 503 exactly when that entry is stale and the feed is unavailable, and otherwise the station lookup in the payload served |
| WeatherFeed.GetRainfallData | main.py:146-175 | the cache afterwards is the one `get_hko_data` leaves for `rhrread`, so only that entry can change; the reply fails, with 503, exactly when that entry is stale and the feed is unavailable, and otherwise is the rainfall report of the payload served |
| WeatherFeed.GetForecast | main.py:177-204 | the cache afterwards is the one `get_hko_data` leaves for `fnd`, so only that entry can change; the reply fails, with 503, exactly when that entry is stale and the feed is unavailable, and otherwise is the forecast of the payload served |
| WeatherFeed.RepeatRainfallWithinWindow | main.py:146-149 | a rainfall request less than 300 s after one that fetched the feed gets the same report from the cache, whatever the network would answer, and leaves the cache as it was |
| PySlice.Take | auth.py:19 | `decoded[:32]`: the first 32 bytes, or all of them when there are fewer |
| PySlice.Drop | auth.py:20 | `decoded[32:]`: the bytes after the 32nd, empty when there are no more |
| PySlice.SplitConcat | auth.py:14-20 | splitting `a ++ b` at the length of `a` gives `a` and `b` back |
| Utf8.EncodeChar | auth.py:10 | a character encodes to one to four bytes, a count its first byte announces |
| Utf8.CodePointOfEncodeChar | auth.py:10 | the bytes of a character decode back to its code point |
| Utf8.Encode | auth.py:10 | the encoding has between one and four bytes per character |
| Utf8.EncodeInjective | auth.py:10 | two strings with the same UTF-8 bytes are equal |
| Base64.SextetValue | auth.py:18 | an alphabet character gives the 6-bit value whose character it is, and every other character gives none |
| Base64.Encode | auth.py:14 | four characters for every three bytes or part of three |
| Base64.EncodeChars | auth.py:14 | the encoding holds only alphabet characters and `=`, so `.decode('ascii')` cannot fail |
| Base64.RunBounds | auth.py:18 | the decoder only appends to what it has written, and writes at most three bytes per four characters |
| Base64.Decode | auth.py:18 | non-ASCII text fails, and a decoded record has at most three bytes per four characters |
| Base64.RunQuantum | auth.py:14-18 | reading the four characters of three bytes from the start of a quantum writes exactly those bytes |
| Base64.RunEncode | auth.py:14-18 | decoding an encoding from the start of a quantum appends exactly the encoded bytes |
| Base64.DecodeEncode | auth.py:14-18 | `b64decode(b64encode(b)) == b` for every byte string |
| Base64.EncodeInjective | auth.py:14 | different byte strings have different encodings |
| Base64.OpenQuantumRejected | auth.py:18 | text without `=` whose alphabet characters do not make whole quanta fails to decode |
| Auth.HashPassword | auth.py:6-14 | the record decodes to the salt followed by the key derived from the UTF-8 password under it, and holds only alphabet characters and `=` |
| Auth.VerifyPassword | auth.py:16-30 | `true` exactly when the record decodes and the key derived under its first 32 bytes equals the rest; a record that does not decode gives `false` |
| Auth.RecordLayout | auth.py:14-20 | splitting a hashed record's bytes at 32 gives back the salt and the derived key |
| Auth.VerifyHashedPassword | auth.py:6-28 | every password verifies against every record hashed from it |
| Auth.WrongLengthNeverVerifies | auth.py:19-28 | with keys of the 32-byte digest size, a record that does not decode to exactly 64 bytes never verifies |
| Auth.DistinctSaltsDistinctRecords | auth.py:7-14 | one password hashed under two different salts gives two different records |
| Auth.VerifyAgainstRecord | auth.py:16-28 | against a record hashed under a salt, a password verifies exactly when it derives the hashed password's key under that salt |
| Auth.WrongPasswordRejected | auth.py:22-28 | a password deriving a different key under the salt does not verify against the record |
| Auth.OpenRecordRejected | auth.py:17-30 | a record without `=` whose alphabet characters do not make whole quanta gives `false` rather than raising; "not-valid-base64!!", with fourteen alphabet characters, is such a record |

## Left out

- FastAPI routing, the `/` and `/health` endpoints and the construction of `HTTPException`: errors are the `ApiError` datatype with the status code the source raises.
- `get_current_temperatures`: its average and its rounding are floating-point arithmetic.
- The HTTP request (URL, parameters, timeout, `raise_for_status`, JSON decoding): a fetch is its outcome, a payload or an unavailable feed.
- `time.time()`: the caller passes `now`. Timestamps are reals, and floating-point rounding of `current_time - cached_time` is not modelled.
- JSON values of the wrong type, such as a `null` place or a string `max`, where the source would raise a 500: a missing key and a `null` are both `None`, and the defaults of `dict.get` are applied to `None`.
- WeatherFeed.Lower: lower-cases ASCII letters only, where Python's `str.lower` follows Unicode case mapping; the model assumes both the station names in the feed and the query are ASCII. A query such as "\u212Aing's Park" (KELVIN SIGN), which Python lower-cases to "king's park", finds King's Park in the source and is a 404 in the model.
- Concurrent requests sharing `weather_cache`: each call is one atomic step.
- `os.urandom`: the salt is a parameter.
- Strings holding lone surrogates, for which `str.encode('utf-8')` raises (inside `verify_password`'s `try`, giving `false`): a Dafny `char` is a Unicode scalar value, so such strings cannot be written.
- PBKDF2-HMAC-SHA256 (section 5.2 of RFC 8018): the key derivation is a function-valued parameter. Its 32-byte output is a precondition of the lemma that needs it. A wrong password is rejected when its key differs from the stored one; collisions of the derivation are outside the model.
- models.py (database table declarations) and test_simple.py (a script that prints database rows) hold no logic of this core.
