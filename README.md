# Catalog synchronization client, modelled in Dafny

This project models the core of a small Rust client for a music-streaming
platform's web API. The client obtains a credential through the OAuth 2.0
client-credentials grant (section 4.4 of RFC 6749, response fields of section
5.1). It fetches one page of new album releases (that request names no market).
Then, for the given market, it enriches every album with its track listing,
one request per album. It also models how the command-line front end reads `CLIENT_ID` and `CLIENT_SECRET` from a
key=value file.

Modules, one per concern:

- `Results`: `Option`, `Result` with a string error (the client's boxed error
  messages), and `MapAll`, the fail-fast loop `push(f(x)?)`.
- `Json`: the decoded JSON tree and the `serde_json::Value` accessors used
  (`v[key]`, `as_str`, `as_i64`, `as_array`). Indexing a missing key or a
  non-object gives `JNull`.
- `RustStd`: `str::trim` (with the Unicode White_Space set),
  `str::split_once`, `str::starts_with` and the `as u32` cast of an `i64`
  (wrap modulo 2^32).
- `Records`: `Album`, `Song`, `AuthData` (src/album.rs, src/song.rs,
  src/auth/auth_data.rs).
- `AuthClientModel`: src/auth/auth_client.rs. The token POST is an oracle
  `TokenRequest -> Result<Json>` held in the client value, standing for
  `req_client`.
- `LegacyAuth`: the older src/auth.rs. It is proved to agree with
  `AuthClientModel` on every input.
- `Catalog`: the decoding and enrichment logic of src/spotify.rs as pure
  functions, and what one run computes (`NewAlbums`, `SyncCatalog`).
- `Spotify`: the class `SpotifyClient`. It holds the cached `authData`, the
  HTTP oracle `httpClient` (standing for `http_client`) and a ghost counter
  `authCalls` of token-client calls. Its methods follow the source's loops and
  in-place updates. Each method is proved against the `Catalog` functions.
- `Credentials`: `load_credentials` of src/main.rs over the lines of the file.

The client accepts empty album ids and names and empty client credentials.
Every error is a message string such as `Missing total_tracks`.

## Model

| member | source | states |
|---|---|---|
| Results.MapAll | src/spotify.rs:88-90 | fail-fast traversal: succeeds iff every element does; then same length and element i is f(xs[i]); otherwise the error of the first failing element |
| RustStd.Trim | src/main.rs:61 | the result is s minus a whitespace prefix and suffix; it neither starts nor ends with whitespace; it is empty iff s is all whitespace |
| RustStd.TrimOf | src/main.rs:66 | trimming pre + core + post, with whitespace pre/post and a core bounded by non-whitespace, gives exactly core |
| RustStd.TrimIdempotent | src/main.rs:66 | trimming a trimmed string changes nothing, so stored keys and values need no further trimming |
| RustStd.TrimKeepsOut | src/main.rs:66 | trimming adds no character: a character absent from s is absent from its trimmed form |
| RustStd.SplitOnce | src/main.rs:65 | None iff the separator is absent; otherwise before + sep + after rebuilds the line and before has no separator (the split is at the first one) |
| RustStd.SplitOnceAt | src/main.rs:65 | a + sep + b with sep not in a splits back into exactly (a, b), so the value keeps later separators |
| RustStd.WrapU32 | src/spotify.rs:54-56 | the cast result is below 2^32, congruent to the input modulo 2^32, and equal to it when it already fits |
| AuthClientModel.New | src/auth/auth_client.rs:12-23 | fails only when the HTTP client builder fails; stores the HTTP client and both credentials unchanged, with no emptiness check |
| AuthClientModel.FormParams | src/auth/auth_client.rs:26-30 | exactly three pairs: grant_type=client_credentials, then client_id and client_secret carrying the credentials verbatim |
| AuthClientModel.FormCarriesCredentials | src/auth/auth_client.rs:26-30 | a reader of the form body finds client_credentials under grant_type and each credential under its own name, at its first occurrence, and finds nothing under any other name |
| AuthClientModel.GetAccessToken | src/auth/auth_client.rs:25-46 | one POST of FormParams to the token URL with the form-urlencoded content type; the endpoint's answer, body or transport error, is returned as it is (no contract of its own; Authenticate is stated through it) |
| AuthClientModel.AuthDataFromJson | src/auth/auth_client.rs:51-69 | succeeds iff access_token and token_type are strings and expires_in is an i64; the error names the first failing field in the order access_token, token_type, expires_in; on success the strings are copied verbatim and expires_in is wrapped to u32 |
| AuthClientModel.Authenticate | src/auth/auth_client.rs:48-70 | the result follows the token POST: a transport failure is returned unchanged, otherwise the result is the field extraction of the response |
| AuthClientModel.ValidResponseDecodes | src/auth/auth_client.rs:51-69 | a response with the three fields (expires_in below 2^32) yields exactly those three values |
| LegacyAuth.New | src/auth.rs:18-26 | fails only when the builder fails; stores both credentials unchanged |
| LegacyAuth.GrantRequest | src/auth.rs:29-42 | the older revision posts to the same token URL with the same content type and the same form as the current revision's FormParams |
| LegacyAuth.Authenticate | src/auth.rs:28-67 | answers the inline grant request: a transport failure is returned unchanged; otherwise the response decodes exactly as AuthDataFromJson, with the same success condition, error order and copied fields |
| LegacyAuth.AgreesWithAuthClient | src/auth.rs:28-67 | the two revisions return the same result for the same endpoint and credentials, success or error |
| Catalog.SongsByAlbumUrl | src/spotify.rs:26-28 | the URL is the albums prefix, then the id, then /tracks, and the id can be read back from it |
| Catalog.SongsByAlbumUrlInjective | src/spotify.rs:26-28 | distinct album ids give distinct tracks URLs |
| Catalog.TracksRequest | src/spotify.rs:113-122 | the album's own tracks URL, the query id=<album id> then market=<country code>, and the header value as the Authorization header |
| Catalog.NewReleasesRequest | src/spotify.rs:153-156 | the new-releases URL with no query parameters and the header value as the Authorization header |
| Catalog.AuthHeader | src/spotify.rs:141-144 | the header value is token_type, then exactly one space, then access_token |
| Catalog.AuthHeaderSplits | src/spotify.rs:141-144 | the header is token_type, one space, access_token: when the token type has no space, the header splits back into the two |
| Catalog.StrFromValue | src/spotify.rs:37-46 | returns the string iff data[key] is a JSON string, which requires data to be an object holding key; otherwise the error is "Missing " + key |
| Catalog.MarketCodes | src/spotify.rs:62-68 | no more codes than entries, and every code is carried by a string entry of available_markets |
| Catalog.MarketCodesConcat | src/spotify.rs:62-68 | filtering the markets distributes over concatenation, so codes keep the order of their entries |
| Catalog.MarketCodesMembers | src/spotify.rs:62-68 | a code is kept iff a string entry carries it, so non-strings are dropped without failing; when all entries are strings there are as many codes as entries |
| Catalog.MarketCodesExample | src/spotify.rs:62-68 | ["AR", 42, "US"] gives ["AR", "US"] |
| Catalog.AlbumFromJson | src/spotify.rs:48-77 | succeeds iff id and name are strings, total_tracks is an i64 and available_markets is an array; the error names the first failing field in the order id, name, total_tracks, available_markets; on success id and name are copied verbatim, total_tracks is taken modulo 2^32, the markets are the filtered strings and songs is empty |
| Catalog.ReleaseItems | src/spotify.rs:83-85 | the items exist iff the response is an object whose albums member is an object whose items member is an array, and they are that array |
| Catalog.AlbumsFromJson | src/spotify.rs:79-93 | fails with "Missing items array" when albums.items is not an array; otherwise succeeds iff every item decodes, with the same length and order and album i the decoding of item i; else the error of the first bad item |
| Catalog.SongFromJson | src/spotify.rs:95-103 | succeeds iff id and name are strings, id checked first; the song carries both verbatim |
| Catalog.TrackListing | src/spotify.rs:128-133 | fails with "Missing items" when items is not an array; otherwise succeeds iff every item is a song, with one song per item in order; else the error of the first bad item |
| Catalog.EmptyListingHasNoSongs | src/spotify.rs:128-133 | an empty items array gives no songs, not an error |
| Catalog.TrackListingFirstFailure | src/spotify.rs:130-133 | the listing fails with exactly the error of its first bad item |
| Catalog.Enrich | src/spotify.rs:119-133 | one album succeeds iff its response arrived and its listing decodes; otherwise the transport or decoding error; on success the metadata is unchanged and the songs are the old songs followed by the listing |
| Catalog.EnrichWith | src/spotify.rs:113-133 | uses the album's own tracks request; succeeds iff the response arrived and its listing decodes, and then appends the listing to the album's songs; otherwise the transport error or the listing error |
| Catalog.EnrichAll | src/spotify.rs:112-134 | succeeds iff every album's enrichment does; then same length and album i is its own enrichment; otherwise the error of the first album that fails |
| Catalog.EnrichAllFirstFailure | src/spotify.rs:112-134 | enrichment fails with exactly the error of the first failing album |
| Catalog.EnrichKeepsAlbum | src/spotify.rs:130-133 | enriching keeps an album's metadata and the songs it already had as a prefix |
| Catalog.DecodedPrefix | src/spotify.rs:130-133 | the songs pushed before the loop stops: one per item, in order, each the decoding of its item, up to the first item that is not a song |
| Catalog.PartlyEnriched | src/spotify.rs:112-133 | the album as one iteration leaves it, success or not: unchanged when the request fails or items is missing, otherwise its old songs plus the decoded prefix; metadata always kept; equal to the enriched album on success |
| Catalog.EnrichAllKeepsAlbums | src/spotify.rs:112-134 | a successful enrichment keeps the number, order and metadata of the albums and appends to each exactly the songs of its own response |
| Catalog.NewAlbums | src/spotify.rs:153-165 | a failed new-releases request gives its error; a response that does not decode gives the decoding error (such as "Missing items array"); otherwise the result is the enrichment of the decoded albums |
| Catalog.AuthStringFor | src/spotify.rs:138-145 | the header exists iff the token client succeeds, and is the header of its credential; otherwise its error |
| Catalog.SyncCatalog | src/spotify.rs:147-166 | a token-client failure is the run's error; otherwise the run is NewAlbums with the header value of the obtained credential |
| Catalog.NewAlbumsShape | src/spotify.rs:147-166 | a successful run has one album per release item, in order; each is that item's decoding with the songs of its own tracks response |
| Catalog.FailingAlbumFailsRun | src/spotify.rs:162-165 | if any album's tracks request or listing fails, the run fails and returns no albums; the error is that of the first failing album |
| Catalog.ExampleReleasesDecode | src/spotify.rs:79-93 | the sample new-releases response decodes to the one album A1 "Test" with 2 tracks, market AR and no songs |
| Catalog.ExampleListingDecodes | src/spotify.rs:128-133 | the sample listing decodes to songs S1 "One" and S2 "Two", in order |
| Catalog.EndToEndExample | src/spotify.rs:147-166 | with the sample responses the run returns exactly album A1 with songs S1 then S2 |
| Spotify.SpotifyClient.constructor | src/spotify.rs:15-24 | a new client holds the given token client and HTTP client, no credential, and has made no token call |
| Spotify.SpotifyClient.Authenticate | src/spotify.rs:30-35 | calls the token client only while no credential is cached and then caches its result; a cached credential is never replaced and causes no call; keeps the invariant that the cache holds what the token client returned |
| Spotify.SpotifyClient.GetAuthString | src/spotify.rs:138-145 | returns token_type + " " + access_token of the cached credential; the unwrap cannot fail; the token client is called only if nothing was cached; a cached credential is unchanged |
| Spotify.SpotifyClient.ParseAnAlbum | src/spotify.rs:48-77 | the loop that pushes market strings computes exactly AlbumFromJson |
| Spotify.SpotifyClient.ParseAlbums | src/spotify.rs:79-93 | the push loop computes exactly AlbumsFromJson, stopping at the first bad item |
| Spotify.SpotifyClient.FillAlbumsWithSongs | src/spotify.rs:105-136 | an auth failure leaves the array untouched; on success the array becomes EnrichAll of its old contents; on a failure at the first failing album i, the error is that album's, the albums before i are enriched, album i holds its old songs plus those pushed before the failure, and the albums after i are unchanged; every album keeps its metadata and old songs; at most one token call |
| Spotify.SpotifyClient.FillAlbum | src/spotify.rs:113-133 | album i becomes PartlyEnriched of its tracks response, whether or not the iteration fails; the result is Ok iff its enrichment is, with that enrichment's error otherwise; the other albums are untouched |
| Spotify.SpotifyClient.FailedAtKeepsAlbums | src/spotify.rs:112-134 | after a failure at album i every album still has its metadata and the songs it had before |
| Spotify.SpotifyClient.GetNewAlbums | src/spotify.rs:147-166 | returns exactly SyncCatalog: the whole enriched catalog or the first error and no list; asks for the header twice but calls the token client at most once, and never once a credential is cached |
| Spotify.AuthStringIsCached | src/spotify.rs:138-145 | on a fresh client two header requests give the token client's header twice; the token client is asked once in all when the first succeeded (the second comes from the cache) and twice when it failed |
| Credentials.ParseLine | src/main.rs:61-67 | a line contributes nothing iff it is all whitespace, its raw first character is #, or it has no =; otherwise the trimmed text before the first = and the trimmed rest |
| Credentials.InsertAll | src/main.rs:57-68 | every entry of the map built by the line loop is the pair of some line |
| Credentials.CredentialMap | src/main.rs:57-68 | the map after the line loop: InsertAll with ParseLine (no contract of its own; InsertAllKeys, LastWriteWins and CredentialMapTrimmed state its keys and values) |
| Credentials.InsertAllKeys | src/main.rs:57-68 | a key is in the map iff some line defines it |
| Credentials.LastWriteWins | src/main.rs:66 | the value under a key is the one from the last line that defines it |
| Credentials.ParsedPairTrimmed | src/main.rs:65-66 | a contributing line gives a key without surrounding whitespace and without =, and a value without surrounding whitespace |
| Credentials.CredentialMapTrimmed | src/main.rs:66 | for any lines, every key of the map is trimmed and has no =, and every value is trimmed |
| Credentials.CommentLineIgnored | src/main.rs:61-63 | a line starting with # contributes nothing, even when it assigns |
| Credentials.ParseAssignment | src/main.rs:65-66 | a key=value line not starting with # yields the trimmed key and the trimmed value, and the value keeps any later = signs |
| Credentials.LoadCredentials | src/main.rs:54-81 | the line loop builds CredentialMap; a missing CLIENT_ID gives "CLIENT_ID is missing from .env", checked before a missing CLIENT_SECRET, which gives "CLIENT_SECRET is missing from .env"; otherwise the two values, empty or not |

## Left out

- HTTP transport and JSON text decoding (`send`, `.json()`) are not modelled. Each request is answered by an oracle function giving the decoded JSON or a transport error. The oracle is deterministic: the same request always gets the same answer. So a retried authentication after a failure fails again, and albums with the same id get the same listing.
- URL building through `reqwest::Url::parse_with_params` (src/spotify.rs:118) is not modelled. The tracks request keeps its URL and its `id`/`market` query pairs apart, and the parse failure the `?` allows is not modelled.
- Request headers other than `Authorization` are not modelled. The token request does keep its URL and content type.
- async/await and tokio: the model is sequential, like the source's behaviour.
- Opening and reading the credentials file (src/main.rs:55-60) is not modelled: `LoadCredentials` takes the lines, and I/O errors on a line are not modelled.
- Terminal output (`print_albums`, src/color.rs), exit codes and the wiring in `main` (src/main.rs:83-100) are not modelled. `fetch_and_print_albums` calls `SpotifyClient::new` and `Market` with signatures the core does not have (src/main.rs:47-49).
- src/market.rs holds only the constant "AR" and is not modelled.
- Floating-point numbers are the constructor `JNonIntNum`, which `as_i64` rejects. Integers outside serde_json's range are representable but are rejected by `as_i64` like any integer beyond i64.
- Credential expiry is never checked, as in the source.
