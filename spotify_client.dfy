/** `SpotifyClient` of src/spotify.rs: the object that caches the credential
    and runs the fetch-and-enrich pipeline. Its network access is the oracle
    `httpClient`; its token client is the value `authClient`. */
module Spotify {
  import opened Results
  import opened Json
  import opened RustStd
  import opened Records
  import opened Catalog
  import AuthClientModel

  class SpotifyClient {
    const authClient: AuthClientModel.AuthClient
    const httpClient: HttpClient
    var authData: Option<AuthData>
    /** How many times the token client has been asked for a credential. */
    ghost var authCalls: nat

    /** The cached credential, when there is one, is what the token client
        returned, and the token client has been asked at least once; a client
        that asked and holds nothing was refused. */
    ghost predicate Valid()
      reads this
    {
      && (authData.Some? ==> authCalls >= 1 && AuthClientModel.Authenticate(authClient) == Ok(authData.value))
      && (authData.None? && authCalls >= 1 ==> AuthClientModel.Authenticate(authClient).Err?)
    }

    /** `SpotifyClient::new`: no credential yet. */
    constructor (authClient: AuthClientModel.AuthClient, httpClient: HttpClient)
      ensures Valid()
      ensures this.authClient == authClient && this.httpClient == httpClient
      ensures authData == None && authCalls == 0
    {
      this.authClient := authClient;
      this.httpClient := httpClient;
      authData := None;
      authCalls := 0;
    }

    /** `authenticate`: asks the token client only while no credential is
        cached; a cached credential is never replaced. */
    method Authenticate() returns (r: Result<()>)
      requires Valid()
      modifies this
      ensures Valid()
      ensures old(authData).Some? ==> authData == old(authData) && authCalls == old(authCalls) && r == Ok(())
      ensures old(authData).None? ==> authCalls == old(authCalls) + 1
      ensures old(authData).None? ==>
        match AuthClientModel.Authenticate(authClient)
        case Ok(d) => authData == Some(d) && r == Ok(())
        case Err(e) => authData == None && r == Err(e)
    {
      if authData.None? {
        authCalls := authCalls + 1;
        var d :- AuthClientModel.Authenticate(authClient);
        authData := Some(d);
      }
      r := Ok(());
    }

    /** `get_auth_string`: authenticates if needed, then formats the cached
        credential; the credential is always present at that point. */
    method GetAuthString() returns (r: Result<string>)
      requires Valid()
      modifies this
      ensures Valid()
      ensures r == AuthStringFor(authClient)
      ensures r.Ok? <==> authData.Some?
      ensures r.Ok? ==> r.value == AuthHeader(authData.value)
      ensures authCalls == old(authCalls) + (if old(authData).None? then 1 else 0)
      ensures old(authData).Some? ==> authData == old(authData)
    {
      var _ :- Authenticate();
      var authData := this.authData.value;
      r := Ok(AuthHeader(authData));
    }

    /** `parse_an_album`, with its loop over `available_markets`. */
    method ParseAnAlbum(albumData: Json) returns (r: Result<Album>)
      ensures r == AlbumFromJson(albumData)
    {
      var id :- StrFromValue(albumData, "id");
      var name :- StrFromValue(albumData, "name");
      var totalTracks :- match AsI64(Index(albumData, "total_tracks"))
        case Some(n) => Ok(n)
        case None => Err("Missing total_tracks");
      var marketsSerde :- match AsArray(Index(albumData, "available_markets"))
        case Some(xs) => Ok(xs)
        case None => Err("Missing available_markets");
      var availableMarkets: seq<string> := [];
      for i := 0 to |marketsSerde|
        invariant availableMarkets == MarketCodes(marketsSerde[..i])
      {
        assert marketsSerde[..i + 1] == marketsSerde[..i] + [marketsSerde[i]];
        MarketCodesSnoc(marketsSerde[..i], marketsSerde[i]);
        match AsStr(marketsSerde[i]) {
          case Some(elemStr) => availableMarkets := availableMarkets + [elemStr];
          case None =>
        }
      }
      assert marketsSerde[..|marketsSerde|] == marketsSerde;
      r := Ok(Album(id, WrapU32(totalTracks), availableMarkets, name, []));
    }

    /** `parse_albums`: pushes the albums one by one and stops at the first
        that fails. */
    method ParseAlbums(data: Json) returns (r: Result<seq<Album>>)
      ensures r == AlbumsFromJson(data)
    {
      var items :- match ReleaseItems(data)
        case Some(xs) => Ok(xs)
        case None => Err("Missing items array");
      var albums: seq<Album> := [];
      for i := 0 to |items|
        invariant |albums| == i
        invariant forall k :: 0 <= k < i ==> AlbumFromJson(items[k]).Ok? && albums[k] == AlbumFromJson(items[k]).value
      {
        var album := ParseAnAlbum(items[i]);
        if album.Err? {
          assert FirstFailure(AlbumFromJson, items, i);
          var k :| FirstFailure(AlbumFromJson, items, k) && AlbumsFromJson(data).error == AlbumFromJson(items[k]).error;
          FirstFailureUnique(AlbumFromJson, items, i, k);
          return Err(album.error);
        }
        albums := albums + [album.value];
      }
      assert AlbumsFromJson(data).Ok?;
      assert AlbumsFromJson(data).value == albums;
      r := Ok(albums);
    }

    /** `fill_albums_with_songs`: for each album in turn, fetches its listing
        and pushes its songs onto it in place, stopping at the first failure.
        Whatever happens, no album loses metadata or songs it had. */
    method FillAlbumsWithSongs(albums: array<Album>, countryCode: string) returns (r: Result<()>)
      requires Valid()
      modifies this, albums
      ensures Valid()
      ensures authCalls == old(authCalls) + (if old(authData).None? then 1 else 0)
      ensures old(authData).Some? ==> authData == old(authData)
      ensures AuthStringFor(authClient).Err? ==>
        r == Err(AuthStringFor(authClient).error) && albums[..] == old(albums[..])
      ensures AuthStringFor(authClient).Ok? ==>
        var enriched := EnrichAll(httpClient, countryCode, AuthStringFor(authClient).value, old(albums[..]));
        && (r.Ok? <==> enriched.Ok?)
        && (r.Ok? ==> albums[..] == enriched.value)
        && (r.Err? ==> r.error == enriched.error)
      ensures AuthStringFor(authClient).Ok? && r.Err? ==>
        var authString := AuthStringFor(authClient).value;
        exists i :: 0 <= i < albums.Length && FailedAt(albums, old(albums[..]), countryCode, authString, i)
          && r.error == EnrichWith(httpClient, countryCode, authString, old(albums[i])).error
      ensures forall i :: 0 <= i < albums.Length ==>
        SameMetadata(albums[i], old(albums[i])) && old(albums[i].songs) <= albums[i].songs
    {
      var authString :- GetAuthString();
      ghost var before := albums[..];
      for i := 0 to albums.Length
        modifies albums
        invariant forall k :: 0 <= k < i ==>
          EnrichWith(httpClient, countryCode, authString, before[k]).Ok?
          && albums[k] == EnrichWith(httpClient, countryCode, authString, before[k]).value
        invariant forall k :: i <= k < albums.Length ==> albums[k] == before[k]
      {
        var filled := FillAlbum(albums, i, countryCode, authString);
        if filled.Err? {
          EnrichAllFirstFailure(httpClient, countryCode, authString, before, i);
          assert FailedAt(albums, before, countryCode, authString, i);
          FailedAtKeepsAlbums(albums, before, countryCode, authString, i);
          return Err(filled.error);
        }
      }
      assert albums[..] == EnrichAll(httpClient, countryCode, authString, before).value;
      forall k | 0 <= k < albums.Length
        ensures SameMetadata(albums[k], before[k]) && before[k].songs <= albums[k].songs
      {
        EnrichKeepsAlbum(httpClient, countryCode, authString, before[k]);
      }
      r := Ok(());
    }

    /** The array as `fill_albums_with_songs` leaves it when album `i` is the
        first whose request or listing fails: the albums before it enriched,
        album `i` holding the songs pushed before the failure, the albums after
        it as they were. */
    ghost predicate FailedAt(albums: array<Album>, before: seq<Album>, countryCode: string, authString: string, i: int)
      reads albums
    {
      && albums.Length == |before| && 0 <= i < |before|
      && (forall k :: 0 <= k < i ==>
            EnrichWith(httpClient, countryCode, authString, before[k]).Ok?
            && albums[k] == EnrichWith(httpClient, countryCode, authString, before[k]).value)
      && EnrichWith(httpClient, countryCode, authString, before[i]).Err?
      && albums[i] == PartlyEnriched(before[i], httpClient(TracksRequest(before[i].id, countryCode, authString)))
      && (forall k :: i < k < |before| ==> albums[k] == before[k])
    }

    /** A failed fill still keeps every album's metadata and the songs it had. */
    lemma FailedAtKeepsAlbums(albums: array<Album>, before: seq<Album>, countryCode: string, authString: string, i: int)
      requires FailedAt(albums, before, countryCode, authString, i)
      ensures forall k :: 0 <= k < albums.Length ==>
        SameMetadata(albums[k], before[k]) && before[k].songs <= albums[k].songs
    {
      forall k | 0 <= k < i
        ensures SameMetadata(albums[k], before[k]) && before[k].songs <= albums[k].songs
      {
        EnrichKeepsAlbum(httpClient, countryCode, authString, before[k]);
      }
    }

    /** One iteration of `fill_albums_with_songs`: the tracks request of album
        `i`, then its songs pushed one by one; the other albums are untouched. */
    method FillAlbum(albums: array<Album>, i: nat, countryCode: string, authString: string) returns (r: Result<()>)
      requires i < albums.Length
      modifies albums
      ensures forall k :: 0 <= k < albums.Length && k != i ==> albums[k] == old(albums[k])
      ensures SameMetadata(albums[i], old(albums[i])) && old(albums[i].songs) <= albums[i].songs
      ensures albums[i] == PartlyEnriched(old(albums[i]), httpClient(TracksRequest(old(albums[i]).id, countryCode, authString)))
      ensures var enriched := EnrichWith(httpClient, countryCode, authString, old(albums[i]));
        && (r.Ok? <==> enriched.Ok?)
        && (r.Ok? ==> albums[i] == enriched.value)
        && (r.Err? ==> r.error == enriched.error)
    {
      var album := albums[i];
      var params := [("id", album.id), ("market", countryCode)];
      var url := SongsByAlbumUrl(album.id);
      var responseData :- httpClient(Get(url, params, authString));
      var songItems :- match AsArray(Index(responseData, "items"))
        case Some(xs) => Ok(xs)
        case None => Err("Missing items");
      for j := 0 to |songItems|
        modifies albums
        invariant forall k :: 0 <= k < albums.Length && k != i ==> albums[k] == old(albums[k])
        invariant albums[i] == album.(songs := albums[i].songs)
        invariant |albums[i].songs| == |album.songs| + j
        invariant albums[i].songs[..|album.songs|] == album.songs
        invariant forall k :: 0 <= k < j ==>
          SongFromJson(songItems[k]).Ok? && albums[i].songs[|album.songs| + k] == SongFromJson(songItems[k]).value
      {
        var song := SongFromJson(songItems[j]);
        if song.Err? {
          assert FirstFailure(SongFromJson, songItems, j);
          TrackListingFirstFailure(responseData, j);
          ghost var prefix := DecodedPrefix(songItems);
          assert |prefix| == j;
          assert albums[i].songs == album.songs + prefix;
          return Err(song.error);
        }
        albums[i] := albums[i].(songs := albums[i].songs + [song.value]);
      }
      assert albums[i].songs == album.songs + TrackListing(responseData).value;
      r := Ok(());
    }

    /** `get_new_albums`: one run of the pipeline. It asks for the header twice
        but the token client at most once, and returns either the whole
        enriched catalog or the first error and no albums. */
    method GetNewAlbums(countryCode: string) returns (r: Result<seq<Album>>)
      requires Valid()
      modifies this
      ensures Valid()
      ensures r == SyncCatalog(authClient, httpClient, countryCode)
      ensures authCalls == old(authCalls) + (if old(authData).None? then 1 else 0)
      ensures old(authData).Some? ==> authData == old(authData)
      ensures r.Ok? ==> authData.Some?
    {
      var authString :- GetAuthString();
      var responseData :- httpClient(NewReleasesRequest(authString));
      var albums :- ParseAlbums(responseData);
      var slots := new Album[|albums|](k requires 0 <= k < |albums| => albums[k]);
      assert slots[..] == albums;
      var filled := FillAlbumsWithSongs(slots, countryCode);
      if filled.Err? {
        return Err(filled.error);
      }
      r := Ok(slots[..]);
    }
  }

  /** Asking a fresh client for the header twice: once the first request
      succeeded, the second is answered from the cache and the token client
      has been asked once in all; after a failure it is asked again. */
  method AuthStringIsCached(authClient: AuthClientModel.AuthClient, httpClient: HttpClient)
    returns (first: Result<string>, second: Result<string>, ghost calls: nat)
    ensures first == AuthStringFor(authClient)
    ensures second == first
    ensures calls == (if first.Ok? then 1 else 2)
  {
    var client := new SpotifyClient(authClient, httpClient);
    first := client.GetAuthString();
    second := client.GetAuthString();
    calls := client.authCalls;
  }
}
