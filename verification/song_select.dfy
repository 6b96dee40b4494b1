/**
 * The `song_select` query: songs JOIN artists ON songs.artist_id =
 * artists.artist_id WHERE songs.title = %s AND artists.name = %s,
 * followed by `fetchone`.
 */
module SongSelect {
  import opened Wrappers
  import opened Schema

  /** One result row: (songs.song_id, songs.artist_id). */
  datatype Match = Match(songId: string, artistId: string)

  /** `fetchone` on a non-empty result: which row comes first is up to the
      query plan, so the model takes the choice as a parameter. */
  type Fetch = set<Match> -> Match

  /** The choice always returns one of the rows it is offered. */
  ghost predicate Chooses(fetch: Fetch) {
    forall ms: set<Match> :: ms != {} ==> fetch(ms) in ms
  }

  /** The result set of the join, with case-sensitive string equality. */
  function Matches(songs: map<string, SongRow>, artists: map<string, ArtistRow>, title: string, name: string): (r: set<Match>)
    ensures forall m :: m in r ==>
      exists s :: s in songs.Values && s.songId == m.songId && s.artistId == m.artistId && s.title == title
    ensures forall m :: m in r ==>
      exists a :: a in artists.Values && a.artistId == m.artistId && a.name == name
  {
    set s, a | s in songs.Values && a in artists.Values
               && s.artistId == a.artistId && s.title == title && a.name == name
      :: Match(s.songId, s.artistId)
  }

  /** The key-level reading of a join row: the song exists with that title
      and artist, and that artist exists with that name. */
  ghost predicate Joined(songs: map<string, SongRow>, artists: map<string, ArtistRow>, m: Match, title: string, name: string) {
    && m.songId in songs
    && songs[m.songId].title == title
    && songs[m.songId].artistId == m.artistId
    && m.artistId in artists
    && artists[m.artistId].name == name
  }

  /** The join returns exactly the (song_id, artist_id) pairs of songs with
      the title whose artist has the name. */
  lemma MatchesExactly(songs: map<string, SongRow>, artists: map<string, ArtistRow>, title: string, name: string)
    requires SongsKeyed(songs) && ArtistsKeyed(artists)
    ensures forall m :: m in Matches(songs, artists, title, name) <==> Joined(songs, artists, m, title, name)
  {
    var ms := Matches(songs, artists, title, name);
    forall m | Joined(songs, artists, m, title, name) ensures m in ms {
      var s, a := songs[m.songId], artists[m.artistId];
      assert s in songs.Values && a in artists.Values;
      assert Match(s.songId, s.artistId) == m;
    }
    forall m | m in ms ensures Joined(songs, artists, m, title, name) {
      var s, a :| s in songs.Values && a in artists.Values
                  && s.artistId == a.artistId && s.title == title && a.name == name
                  && m == Match(s.songId, s.artistId);
      var sk :| sk in songs && songs[sk] == s;
      var ak :| ak in artists && artists[ak] == a;
    }
  }

  /** A song whose artist has no artists row never matches, whatever the
      title and name asked for. */
  lemma OrphanSongNeverMatches(songs: map<string, SongRow>, artists: map<string, ArtistRow>, title: string, name: string, sid: string)
    requires SongsKeyed(songs) && ArtistsKeyed(artists)
    requires sid in songs && songs[sid].artistId !in artists
    ensures forall m :: m in Matches(songs, artists, title, name) ==> m.songId != sid
  {
    MatchesExactly(songs, artists, title, name);
  }

  /** `cur.execute(song_select, ...)` then `cur.fetchone()`: a row of the
      result when there is one, NULL otherwise. */
  function Resolve(fetch: Fetch, songs: map<string, SongRow>, artists: map<string, ArtistRow>, title: string, name: string): (r: Option<Match>)
    ensures r.None? <==> Matches(songs, artists, title, name) == {}
    ensures Chooses(fetch) && r.Some? ==> r.value in Matches(songs, artists, title, name)
  {
    var ms := Matches(songs, artists, title, name);
    if ms == {} then None else Some(fetch(ms))
  }

  /** A title no song carries, or a name no artist carries, is unresolved. */
  lemma AbsentPairUnresolved(fetch: Fetch, songs: map<string, SongRow>, artists: map<string, ArtistRow>, title: string, name: string)
    requires (forall s :: s in songs.Values ==> s.title != title)
          || (forall a :: a in artists.Values ==> a.name != name)
    ensures Resolve(fetch, songs, artists, title, name) == None
  {
  }
}
