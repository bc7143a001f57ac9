/** The plain records of the client: an album of the catalog, one of its
    songs, and the credential returned by the identity endpoint. */
module Records {
  import opened RustStd

  datatype Song = Song(id: string, name: string)

  /** `songs` starts empty when the album is decoded and is only appended to
      by the enrichment step. */
  datatype Album = Album(
    id: string,
    totalTracks: U32,
    availableMarkets: seq<string>,
    name: string,
    songs: seq<Song>)

  datatype AuthData = AuthData(accessToken: string, tokenType: string, expiresIn: U32)
}
