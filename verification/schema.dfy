/**
 * The five tables of the analytics schema, each keyed exactly as its
 * CREATE TABLE statement declares, held in memory instead of in PostgreSQL.
 */
module Schema {
  import opened Wrappers

  /** Epoch milliseconds. `start_time` is this instant read as a TIMESTAMP,
      a one-to-one conversion, so the model keys time rows by it directly. */
  type Timestamp = int

  /** The calendar columns of a time row: hour, day, week of year, month,
      year and weekday of `start_time`. */
  datatype Calendar = Calendar(hour: int, day: int, week: int, month: int, year: int, weekday: int)

  datatype TimeRow = TimeRow(startTime: Timestamp, calendar: Calendar)

  datatype UserRow = UserRow(userId: int, firstName: string, lastName: string, gender: string, level: string)

  datatype SongRow = SongRow(songId: string, title: string, artistId: string, year: int, duration: real)

  datatype ArtistRow = ArtistRow(artistId: string, name: string, location: string, latitude: real, longitude: real)

  /** A fact row. `start_time` and `user_id` are NOT NULL columns and so are
      plain values here; `song_id` and `artist_id` may be NULL. The SERIAL
      `songplayid` is not modelled: a row's position in the sequence stands
      for its insertion order. */
  datatype SongplayRow = SongplayRow(
    startTime: Timestamp,
    userId: int,
    level: string,
    songId: Option<string>,
    artistId: Option<string>,
    sessionId: int,
    location: string,
    userAgent: string)

  /** The database: time by `start_time`, users by `user_id`, songs by
      `song_id`, artists by `artist_id`, and songplays in insertion order. */
  datatype Db = Db(
    time: map<Timestamp, TimeRow>,
    users: map<int, UserRow>,
    songs: map<string, SongRow>,
    artists: map<string, ArtistRow>,
    songplays: seq<SongplayRow>)

  /** Two songplays collide on UNIQUE (start_time, user_id, song_id).
      PostgreSQL never treats two NULLs as equal in a unique constraint,
      so a row whose `song_id` is NULL collides with nothing. */
  predicate SameKey(a: SongplayRow, b: SongplayRow) {
    && a.songId.Some?
    && a.songId == b.songId
    && a.startTime == b.startTime
    && a.userId == b.userId
  }

  /** Some stored songplay already holds the unique key of `row`. */
  predicate HasConflict(sp: seq<SongplayRow>, row: SongplayRow) {
    exists i :: 0 <= i < |sp| && SameKey(sp[i], row)
  }

  /** Every map entry is stored under its own primary-key column. */
  ghost predicate Keyed(db: Db) {
    && (forall t :: t in db.time ==> db.time[t].startTime == t)
    && (forall u :: u in db.users ==> db.users[u].userId == u)
    && SongsKeyed(db.songs)
    && ArtistsKeyed(db.artists)
  }

  ghost predicate SongsKeyed(songs: map<string, SongRow>) {
    forall s :: s in songs ==> songs[s].songId == s
  }

  ghost predicate ArtistsKeyed(artists: map<string, ArtistRow>) {
    forall a :: a in artists ==> artists[a].artistId == a
  }

  /** The UNIQUE (start_time, user_id, song_id) constraint holds. */
  ghost predicate SongplaysUnique(sp: seq<SongplayRow>) {
    forall i, j :: 0 <= i < j < |sp| ==> !SameKey(sp[i], sp[j])
  }

  /** Every songplay has `song_id` NULL exactly when `artist_id` is NULL. */
  ghost predicate NullsPaired(sp: seq<SongplayRow>) {
    forall i :: 0 <= i < |sp| ==> (sp[i].songId.None? <==> sp[i].artistId.None?)
  }

  /** The constraints the schema declares. */
  ghost predicate WellFormed(db: Db) {
    Keyed(db) && SongplaysUnique(db.songplays)
  }
}
