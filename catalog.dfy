/** The decoding and enrichment logic of src/spotify.rs as pure functions: how
    a new-releases response becomes albums, how a track-listing response
    becomes songs, and what one synchronization run computes. The HTTP GET is
    an oracle from the request to the decoded JSON body or to the transport
    error. */
module Catalog {
  import opened Results
  import opened Json
  import opened RustStd
  import opened Records
  import AuthClientModel

  const NEW_ALBUM_RELEASES_URL: string := "https://api.spotify.com/v1/browse/new-releases"
  const ALBUMS_URL_PREFIX: string := "https://api.spotify.com/v1/albums/"
  const TRACKS_URL_SUFFIX: string := "/tracks"

  /** A GET with its query parameters and its `Authorization` header value. */
  datatype Request = Get(url: string, query: seq<(string, string)>, authorization: string)

  type HttpClient = Request -> Result<Json>

  // ----- requests -----

  /** `songs_by_album_url`: the tracks endpoint of one album. */
  function SongsByAlbumUrl(id: string): (url: string)
    ensures |url| == |ALBUMS_URL_PREFIX| + |id| + |TRACKS_URL_SUFFIX|
    ensures url[..|ALBUMS_URL_PREFIX|] == ALBUMS_URL_PREFIX
    ensures url[|url| - |TRACKS_URL_SUFFIX|..] == TRACKS_URL_SUFFIX
    ensures url[|ALBUMS_URL_PREFIX|..|url| - |TRACKS_URL_SUFFIX|] == id
  {
    ALBUMS_URL_PREFIX + id + TRACKS_URL_SUFFIX
  }

  /** Different albums are fetched from different URLs. */
  lemma SongsByAlbumUrlInjective(id1: string, id2: string)
    requires SongsByAlbumUrl(id1) == SongsByAlbumUrl(id2)
    ensures id1 == id2
  {
    var u := SongsByAlbumUrl(id1);
    assert id1 == u[|ALBUMS_URL_PREFIX|..|u| - |TRACKS_URL_SUFFIX|] == id2;
  }

  /** The per-album request of `fill_albums_with_songs`: the album's tracks URL
      with the album id and the market as query parameters. */
  function TracksRequest(id: string, countryCode: string, authString: string): (req: Request)
    ensures req.url == SongsByAlbumUrl(id) && req.authorization == authString
    ensures req.query == [("id", id), ("market", countryCode)]
  {
    Get(SongsByAlbumUrl(id), [("id", id), ("market", countryCode)], authString)
  }

  /** The new-releases request of `get_new_albums`: no query parameters. */
  function NewReleasesRequest(authString: string): (req: Request)
    ensures req.url == NEW_ALBUM_RELEASES_URL && req.query == [] && req.authorization == authString
  {
    Get(NEW_ALBUM_RELEASES_URL, [], authString)
  }

  /** The `Authorization` header value built by `get_auth_string`. */
  function AuthHeader(d: AuthData): (h: string)
    ensures |h| == |d.tokenType| + 1 + |d.accessToken|
    ensures h[..|d.tokenType|] == d.tokenType && h[|d.tokenType|] == ' '
    ensures h[|d.tokenType| + 1..] == d.accessToken
  {
    d.tokenType + " " + d.accessToken
  }

  /** The header is the token type and the token joined by one space: when the
      token type has no space, the header splits back into exactly the two. */
  lemma AuthHeaderSplits(d: AuthData)
    requires ' ' !in d.tokenType
    ensures SplitOnce(AuthHeader(d), ' ') == Some((d.tokenType, d.accessToken))
  {
    SplitOnceAt(d.tokenType, ' ', d.accessToken);
  }

  // ----- decoding -----

  /** `str_from_value`: the string under `key`, or `Missing <key>` when there
      is none, including when `data` is not an object. */
  function StrFromValue(data: Json, key: string): (r: Result<string>)
    ensures r.Ok? <==> Index(data, key).JStr?
    ensures r.Ok? ==> data.JObj? && key in data.fields && data.fields[key] == JStr(r.value)
    ensures r.Err? ==> r.error == "Missing " + key
  {
    match AsStr(Index(data, key))
    case Some(s) => Ok(s)
    case None => Err("Missing " + key)
  }

  /** The string entries of `available_markets`, in order; other entries are
      skipped. */
  function MarketCodes(markets: seq<Json>): (codes: seq<string>)
    ensures |codes| <= |markets|
    ensures forall k :: 0 <= k < |codes| ==> JStr(codes[k]) in markets
  {
    if markets == [] then []
    else
      var rest := MarketCodes(markets[1..]);
      assert forall x :: x in markets[1..] ==> x in markets;
      (if markets[0].JStr? then [markets[0].s] else []) + rest
  }

  /** Filtering distributes over concatenation, so the codes keep the order of
      the entries they come from. */
  lemma {:induction false} MarketCodesConcat(xs: seq<Json>, ys: seq<Json>)
    ensures MarketCodes(xs + ys) == MarketCodes(xs) + MarketCodes(ys)
  {
    if xs != [] {
      assert (xs + ys)[1..] == xs[1..] + ys;
      MarketCodesConcat(xs[1..], ys);
    } else {
      assert xs + ys == ys;
    }
  }

  /** One more entry adds its code when it is a string and nothing otherwise. */
  lemma MarketCodesSnoc(xs: seq<Json>, x: Json)
    ensures MarketCodes(xs + [x]) == MarketCodes(xs) + (if x.JStr? then [x.s] else [])
  {
    MarketCodesConcat(xs, [x]);
  }

  /** A code is present exactly when a string entry carries it, and there are
      as many codes as entries when every entry is a string. */
  lemma {:induction false} MarketCodesMembers(xs: seq<Json>)
    ensures forall s :: s in MarketCodes(xs) <==> JStr(s) in xs
    ensures (forall i :: 0 <= i < |xs| ==> xs[i].JStr?) ==> |MarketCodes(xs)| == |xs|
  {
    if xs != [] {
      MarketCodesMembers(xs[1..]);
      assert xs == [xs[0]] + xs[1..];
      forall s ensures JStr(s) in xs <==> (JStr(s) == xs[0] || JStr(s) in xs[1..]) { }
    }
  }

  /** `["AR", 42, "US"]` gives `["AR", "US"]`. */
  lemma MarketCodesExample()
    ensures MarketCodes([JStr("AR"), JInt(42), JStr("US")]) == ["AR", "US"]
  {
    var xs := [JStr("AR"), JInt(42), JStr("US")];
    assert xs[1..][1..] == [JStr("US")];
  }

  /** `parse_an_album`: id, name, total_tracks and available_markets in that
      order, the first that fails naming the error; the markets are filtered
      to their strings and the songs start empty. */
  function AlbumFromJson(albumData: Json): (r: Result<Album>)
    ensures r.Ok? <==>
      && Index(albumData, "id").JStr?
      && Index(albumData, "name").JStr?
      && IsI64(Index(albumData, "total_tracks"))
      && Index(albumData, "available_markets").JArr?
    ensures !Index(albumData, "id").JStr? ==> r == Err("Missing id")
    ensures Index(albumData, "id").JStr? && !Index(albumData, "name").JStr? ==> r == Err("Missing name")
    ensures Index(albumData, "id").JStr? && Index(albumData, "name").JStr?
      && !IsI64(Index(albumData, "total_tracks"))
      ==> r == Err("Missing total_tracks")
    ensures Index(albumData, "id").JStr? && Index(albumData, "name").JStr?
      && IsI64(Index(albumData, "total_tracks")) && !Index(albumData, "available_markets").JArr?
      ==> r == Err("Missing available_markets")
    ensures r.Ok? ==>
      && r.value.id == Index(albumData, "id").s
      && r.value.name == Index(albumData, "name").s
      && r.value.totalTracks == Index(albumData, "total_tracks").i % U32_MODULUS
      && r.value.availableMarkets == MarketCodes(Index(albumData, "available_markets").items)
      && r.value.songs == []
  {
    var id :- StrFromValue(albumData, "id");
    var name :- StrFromValue(albumData, "name");
    var totalTracks :- match AsI64(Index(albumData, "total_tracks"))
      case Some(n) => Ok(n)
      case None => Err("Missing total_tracks");
    var marketsSerde :- match AsArray(Index(albumData, "available_markets"))
      case Some(xs) => Ok(xs)
      case None => Err("Missing available_markets");
    Ok(Album(id, WrapU32(totalTracks), MarketCodes(marketsSerde), name, []))
  }

  /** The array `albums.items` of a new-releases response, if there is one. */
  function ReleaseItems(data: Json): (r: Option<seq<Json>>)
    ensures r.Some? <==>
      && data.JObj? && "albums" in data.fields && data.fields["albums"].JObj?
      && "items" in data.fields["albums"].fields && data.fields["albums"].fields["items"].JArr?
    ensures r.Some? ==> JArr(r.value) == data.fields["albums"].fields["items"]
  {
    AsArray(Index(Index(data, "albums"), "items"))
  }

  /** `parse_albums`: every item of `albums.items` decoded in order; a missing
      array or any bad item fails the whole response. */
  function AlbumsFromJson(data: Json): (r: Result<seq<Album>>)
    ensures ReleaseItems(data).None? ==> r == Err("Missing items array")
    ensures ReleaseItems(data).Some? ==>
      var items := ReleaseItems(data).value;
      && (r.Ok? <==> forall i :: 0 <= i < |items| ==> AlbumFromJson(items[i]).Ok?)
      && (r.Ok? ==> (|r.value| == |items|
            && forall i :: 0 <= i < |items| ==> r.value[i] == AlbumFromJson(items[i]).value))
      && (r.Err? ==> exists i :: FirstFailure(AlbumFromJson, items, i) && r.error == AlbumFromJson(items[i]).error)
  {
    var items :- match ReleaseItems(data)
      case Some(xs) => Ok(xs)
      case None => Err("Missing items array");
    MapAll(AlbumFromJson, items)
  }

  /** `parse_a_song`: the id, then the name. */
  function SongFromJson(songData: Json): (r: Result<Song>)
    ensures r.Ok? <==> Index(songData, "id").JStr? && Index(songData, "name").JStr?
    ensures !Index(songData, "id").JStr? ==> r == Err("Missing id")
    ensures Index(songData, "id").JStr? && !Index(songData, "name").JStr? ==> r == Err("Missing name")
    ensures r.Ok? ==> r.value == Song(Index(songData, "id").s, Index(songData, "name").s)
  {
    var id :- StrFromValue(songData, "id");
    var name :- StrFromValue(songData, "name");
    Ok(Song(id, name))
  }

  /** The songs of one track-listing response: its `items` array decoded in
      order, failing on a missing array or on the first bad item. */
  function TrackListing(response: Json): (r: Result<seq<Song>>)
    ensures !Index(response, "items").JArr? ==> r == Err("Missing items")
    ensures Index(response, "items").JArr? ==>
      var items := Index(response, "items").items;
      && (r.Ok? <==> forall i :: 0 <= i < |items| ==> SongFromJson(items[i]).Ok?)
      && (r.Ok? ==> (|r.value| == |items|
            && forall i :: 0 <= i < |items| ==> r.value[i] == SongFromJson(items[i]).value))
      && (r.Err? ==> exists i :: FirstFailure(SongFromJson, items, i) && r.error == SongFromJson(items[i]).error)
  {
    var items :- match AsArray(Index(response, "items"))
      case Some(xs) => Ok(xs)
      case None => Err("Missing items");
    MapAll(SongFromJson, items)
  }

  /** An empty listing is no songs, not an error. */
  lemma EmptyListingHasNoSongs(rest: map<string, Json>)
    ensures TrackListing(JObj(rest["items" := JArr([])])) == Ok([])
  {
  }

  // ----- enrichment -----

  /** Two albums that differ at most in their songs. */
  predicate SameMetadata(a: Album, b: Album) {
    a.id == b.id && a.name == b.name && a.totalTracks == b.totalTracks
    && a.availableMarkets == b.availableMarkets
  }

  /** One album of `fill_albums_with_songs`: the response to its tracks
      request, decoded, appended to the songs it already has. */
  function Enrich(album: Album, response: Result<Json>): (r: Result<Album>)
    ensures r.Ok? <==> response.Ok? && TrackListing(response.value).Ok?
    ensures response.Err? ==> r == Err(response.error)
    ensures response.Ok? && TrackListing(response.value).Err? ==> r == Err(TrackListing(response.value).error)
    ensures r.Ok? ==> SameMetadata(r.value, album)
    ensures r.Ok? ==> |album.songs| <= |r.value.songs| && r.value.songs[..|album.songs|] == album.songs
    ensures r.Ok? ==> |album.songs| <= |r.value.songs| && r.value.songs[|album.songs|..] == TrackListing(response.value).value
  {
    var json :- response;
    var songs :- TrackListing(json);
    Ok(album.(songs := album.songs + songs))
  }

  /** `Enrich` with the album's own tracks request. */
  function EnrichWith(http: HttpClient, countryCode: string, authString: string, album: Album): (r: Result<Album>)
    ensures var response := http(TracksRequest(album.id, countryCode, authString));
      && (r.Ok? <==> response.Ok? && TrackListing(response.value).Ok?)
      && (r.Ok? ==> r.value == album.(songs := album.songs + TrackListing(response.value).value))
      && (r.Err? ==> r.error == (if response.Err? then response.error else TrackListing(response.value).error))
  {
    Enrich(album, http(TracksRequest(album.id, countryCode, authString)))
  }

  /** The songs of `items` up to, not including, its first item that is not a
      song: what the push loop has added when it stops. */
  function DecodedPrefix(items: seq<Json>): (songs: seq<Song>)
    ensures |songs| <= |items|
    ensures forall k :: 0 <= k < |songs| ==> SongFromJson(items[k]).Ok? && songs[k] == SongFromJson(items[k]).value
    ensures |songs| < |items| ==> SongFromJson(items[|songs|]).Err?
  {
    if items == [] || SongFromJson(items[0]).Err? then []
    else
      var rest := DecodedPrefix(items[1..]);
      assert forall k :: 1 <= k <= |rest| ==> items[k] == items[1..][k - 1];
      [SongFromJson(items[0]).value] + rest
  }

  /** When every item is a song, the decoded prefix is the whole listing. */
  lemma DecodedPrefixComplete(response: Json)
    requires TrackListing(response).Ok?
    ensures DecodedPrefix(Index(response, "items").items) == TrackListing(response).value
  {
  }

  /** The album as one iteration of `fill_albums_with_songs` leaves it, whether
      or not that iteration succeeds: unchanged when the request fails or the
      response has no `items` array, otherwise with the songs before the first
      bad item appended. On success it is the enriched album. */
  function PartlyEnriched(album: Album, response: Result<Json>): (a: Album)
    ensures SameMetadata(a, album) && album.songs <= a.songs
    ensures response.Err? || !Index(response.value, "items").JArr? ==> a == album
    ensures response.Ok? && Index(response.value, "items").JArr? ==>
      a.songs == album.songs + DecodedPrefix(Index(response.value, "items").items)
    ensures Enrich(album, response).Ok? ==> a == Enrich(album, response).value
  {
    if response.Err? || !Index(response.value, "items").JArr? then album
    else
      var a := album.(songs := album.songs + DecodedPrefix(Index(response.value, "items").items));
      if TrackListing(response.value).Ok? then DecodedPrefixComplete(response.value); a else a
  }

  /** `fill_albums_with_songs` over the whole list: albums enriched in order,
      stopping at the first album whose request or listing fails. */
  function EnrichAll(http: HttpClient, countryCode: string, authString: string, albums: seq<Album>): (r: Result<seq<Album>>)
    ensures r.Ok? <==> forall i :: 0 <= i < |albums| ==> EnrichWith(http, countryCode, authString, albums[i]).Ok?
    ensures r.Ok? ==> |r.value| == |albums|
    ensures r.Ok? ==> forall i :: 0 <= i < |albums| ==> r.value[i] == EnrichWith(http, countryCode, authString, albums[i]).value
    ensures r.Err? ==> exists i :: (0 <= i < |albums|
      && EnrichWith(http, countryCode, authString, albums[i]).Err?
      && r.error == EnrichWith(http, countryCode, authString, albums[i]).error
      && forall j :: 0 <= j < i ==> EnrichWith(http, countryCode, authString, albums[j]).Ok?)
  {
    var r := MapAll(a => EnrichWith(http, countryCode, authString, a), albums);
    assert r.Err? ==> exists i :: (FirstFailure(a => EnrichWith(http, countryCode, authString, a), albums, i)
      && r.error == EnrichWith(http, countryCode, authString, albums[i]).error);
    r
  }

  /** The listing fails with the error of its first bad item. */
  lemma TrackListingFirstFailure(response: Json, j: int)
    requires Index(response, "items").JArr?
    requires FirstFailure(SongFromJson, Index(response, "items").items, j)
    ensures TrackListing(response) == Err(SongFromJson(Index(response, "items").items[j]).error)
  {
    var items := Index(response, "items").items;
    var k :| FirstFailure(SongFromJson, items, k) && TrackListing(response).error == SongFromJson(items[k]).error;
    FirstFailureUnique(SongFromJson, items, j, k);
  }

  /** Enrichment fails with the error of the first album that fails. */
  lemma EnrichAllFirstFailure(http: HttpClient, countryCode: string, authString: string, albums: seq<Album>, i: int)
    requires 0 <= i < |albums| && EnrichWith(http, countryCode, authString, albums[i]).Err?
    requires forall k :: 0 <= k < i ==> EnrichWith(http, countryCode, authString, albums[k]).Ok?
    ensures EnrichAll(http, countryCode, authString, albums) == Err(EnrichWith(http, countryCode, authString, albums[i]).error)
  {
    var k :| 0 <= k < |albums|
      && EnrichWith(http, countryCode, authString, albums[k]).Err?
      && EnrichAll(http, countryCode, authString, albums).error == EnrichWith(http, countryCode, authString, albums[k]).error
      && forall j :: 0 <= j < k ==> EnrichWith(http, countryCode, authString, albums[j]).Ok?;
    assert !(k < i) && !(i < k);
  }

  /** Enriching one album keeps its metadata and the songs it had. */
  lemma EnrichKeepsAlbum(http: HttpClient, countryCode: string, authString: string, album: Album)
    ensures var e := EnrichWith(http, countryCode, authString, album);
      e.Ok? ==> SameMetadata(e.value, album) && album.songs <= e.value.songs
  {
  }

  /** Enrichment keeps the number, the order and the metadata of the albums,
      and appends to each exactly the songs of its own listing. */
  lemma EnrichAllKeepsAlbums(http: HttpClient, countryCode: string, authString: string, albums: seq<Album>, i: int)
    requires EnrichAll(http, countryCode, authString, albums).Ok?
    requires 0 <= i < |albums|
    ensures var out := EnrichAll(http, countryCode, authString, albums).value;
      var response := http(TracksRequest(albums[i].id, countryCode, authString));
      && |out| == |albums|
      && SameMetadata(out[i], albums[i])
      && response.Ok?
      && out[i].songs == albums[i].songs + TrackListing(response.value).value
  {
    var out := EnrichAll(http, countryCode, authString, albums);
    var response := http(TracksRequest(albums[i].id, countryCode, authString));
    assert EnrichWith(http, countryCode, authString, albums[i]).Ok?;
    var songs := out.value[i].songs;
    assert songs == songs[..|albums[i].songs|] + songs[|albums[i].songs|..];
  }

  // ----- one synchronization run -----

  /** What `get_new_albums` computes once it holds the header value: the
      new-releases request, its decoding, then the enrichment of every album. */
  function NewAlbums(http: HttpClient, countryCode: string, authString: string): (r: Result<seq<Album>>)
    ensures var response := http(NewReleasesRequest(authString));
      && (response.Err? ==> r == Err(response.error))
      && (response.Ok? && AlbumsFromJson(response.value).Err? ==> r == Err(AlbumsFromJson(response.value).error))
      && (response.Ok? && AlbumsFromJson(response.value).Ok? ==>
            r == EnrichAll(http, countryCode, authString, AlbumsFromJson(response.value).value))
  {
    var responseData :- http(NewReleasesRequest(authString));
    var albums :- AlbumsFromJson(responseData);
    EnrichAll(http, countryCode, authString, albums)
  }

  /** The header value the client obtains through its token client. */
  function AuthStringFor(client: AuthClientModel.AuthClient): (r: Result<string>)
    ensures r.Ok? <==> AuthClientModel.Authenticate(client).Ok?
    ensures r.Ok? ==> r.value == AuthHeader(AuthClientModel.Authenticate(client).value)
    ensures r.Err? ==> r.error == AuthClientModel.Authenticate(client).error
  {
    var authData :- AuthClientModel.Authenticate(client);
    Ok(AuthHeader(authData))
  }

  /** A whole run of `get_new_albums` on a fresh client. */
  function SyncCatalog(client: AuthClientModel.AuthClient, http: HttpClient, countryCode: string): (r: Result<seq<Album>>)
    ensures AuthStringFor(client).Err? ==> r == Err(AuthStringFor(client).error)
    ensures AuthStringFor(client).Ok? ==> r == NewAlbums(http, countryCode, AuthStringFor(client).value)
  {
    var authString :- AuthStringFor(client);
    NewAlbums(http, countryCode, authString)
  }

  /** On success the catalog has one album per item of the new-releases
      response, in order; each is the item's decoding with the songs of its
      own listing appended to its empty song list. */
  lemma NewAlbumsShape(http: HttpClient, countryCode: string, authString: string, i: int)
    requires NewAlbums(http, countryCode, authString).Ok?
    ensures http(NewReleasesRequest(authString)).Ok?
    ensures ReleaseItems(http(NewReleasesRequest(authString)).value).Some?
    ensures var items := ReleaseItems(http(NewReleasesRequest(authString)).value).value;
      var out := NewAlbums(http, countryCode, authString).value;
      && |out| == |items|
      && (0 <= i < |items| ==>
           && AlbumFromJson(items[i]).Ok?
           && SameMetadata(out[i], AlbumFromJson(items[i]).value)
           && http(TracksRequest(out[i].id, countryCode, authString)).Ok?
           && out[i].songs == TrackListing(http(TracksRequest(out[i].id, countryCode, authString)).value).value)
  {
    var data := http(NewReleasesRequest(authString)).value;
    var albums := AlbumsFromJson(data).value;
    if 0 <= i < |albums| {
      EnrichAllKeepsAlbums(http, countryCode, authString, albums, i);
    }
  }

  /** The new-releases response of the example below: one album "A1" named
      "Test" with two tracks, available in "AR". */
  function ExampleReleases(): Json {
    JObj(map["albums" := JObj(map["items" := JArr([
      JObj(map["id" := JStr("A1"), "name" := JStr("Test"), "total_tracks" := JInt(2),
               "available_markets" := JArr([JStr("AR")])])])])])
  }

  /** The track listing of the example below: "S1" then "S2". */
  function ExampleListing(): Json {
    JObj(map["items" := JArr([
      JObj(map["id" := JStr("S1"), "name" := JStr("One")]),
      JObj(map["id" := JStr("S2"), "name" := JStr("Two")])])])
  }

  lemma ExampleReleasesDecode()
    ensures AlbumsFromJson(ExampleReleases()) == Ok([Album("A1", 2, ["AR"], "Test", [])])
  {
    var releases := ExampleReleases();
    var item := ReleaseItems(releases).value[0];
    assert MarketCodes([JStr("AR")]) == ["AR"];
    var album := Album("A1", 2, ["AR"], "Test", []);
    assert AlbumFromJson(item) == Ok(album);
    assert ReleaseItems(releases).value == [item];
    assert AlbumsFromJson(releases).Ok? && |AlbumsFromJson(releases).value| == 1;
    assert AlbumsFromJson(releases).value[0] == album;
    assert AlbumsFromJson(releases).value == [album];
  }

  lemma ExampleListingDecodes()
    ensures TrackListing(ExampleListing()) == Ok([Song("S1", "One"), Song("S2", "Two")])
  {
    var tracks := ExampleListing();
    var songs := [Song("S1", "One"), Song("S2", "Two")];
    var songItems := Index(tracks, "items").items;
    assert SongFromJson(songItems[0]) == Ok(songs[0]);
    assert SongFromJson(songItems[1]) == Ok(songs[1]);
    assert TrackListing(tracks).Ok? && |TrackListing(tracks).value| == 2;
    assert TrackListing(tracks).value[0] == songs[0] && TrackListing(tracks).value[1] == songs[1];
    assert TrackListing(tracks).value == songs;
  }

  /** End to end: with that response and that listing for "A1" in market "AR",
      the run returns exactly the one album with the two songs, in listing
      order. */
  lemma EndToEndExample(http: HttpClient, authString: string)
    requires http(NewReleasesRequest(authString)) == Ok(ExampleReleases())
    requires http(TracksRequest("A1", "AR", authString)) == Ok(ExampleListing())
    ensures NewAlbums(http, "AR", authString)
      == Ok([Album("A1", 2, ["AR"], "Test", [Song("S1", "One"), Song("S2", "Two")])])
  {
    ExampleReleasesDecode();
    ExampleListingDecodes();
    var album := Album("A1", 2, ["AR"], "Test", []);
    var songs := [Song("S1", "One"), Song("S2", "Two")];
    assert EnrichWith(http, "AR", authString, album) == Ok(album.(songs := songs));
    assert EnrichAll(http, "AR", authString, [album]).Ok?;
    assert EnrichAll(http, "AR", authString, [album]).value[0] == album.(songs := songs);
    assert EnrichAll(http, "AR", authString, [album]).value == [album.(songs := songs)];
    assert EnrichAll(http, "AR", authString, [album]) == Ok([album.(songs := songs)]);
  }

  /** Fail-fast: when the tracks request or listing of any album fails, the
      run returns an error and no albums at all; the error is that of the
      first album that fails. */
  lemma FailingAlbumFailsRun(http: HttpClient, countryCode: string, authString: string, i: int)
    requires http(NewReleasesRequest(authString)).Ok?
    requires AlbumsFromJson(http(NewReleasesRequest(authString)).value).Ok?
    requires var albums := AlbumsFromJson(http(NewReleasesRequest(authString)).value).value;
      0 <= i < |albums| && EnrichWith(http, countryCode, authString, albums[i]).Err?
    ensures NewAlbums(http, countryCode, authString).Err?
    ensures var albums := AlbumsFromJson(http(NewReleasesRequest(authString)).value).value;
      (forall k :: 0 <= k < i ==> EnrichWith(http, countryCode, authString, albums[k]).Ok?) ==>
      NewAlbums(http, countryCode, authString) == Err(EnrichWith(http, countryCode, authString, albums[i]).error)
  {
    var albums := AlbumsFromJson(http(NewReleasesRequest(authString)).value).value;
    if forall k :: 0 <= k < i ==> EnrichWith(http, countryCode, authString, albums[k]).Ok? {
      EnrichAllFirstFailure(http, countryCode, authString, albums, i);
    }
  }
}
