/**
 * The five INSERT ... ON CONFLICT statements, one pure function each.
 * time, songs, artists and songplays use DO NOTHING; users uses
 * DO UPDATE SET level = excluded.level.
 */
module Upserts {
  import opened Wrappers
  import opened Schema

  /** INSERT INTO time ... ON CONFLICT (start_time) DO NOTHING. */
  function InsertTime(db: Db, row: TimeRow): (r: Db)
    ensures r.time.Keys == db.time.Keys + {row.startTime}
    ensures forall t :: t in db.time ==> r.time[t] == db.time[t]
    ensures row.startTime !in db.time ==> r.time[row.startTime] == row
    ensures r.users == db.users && r.songs == db.songs && r.artists == db.artists
    ensures r.songplays == db.songplays
    ensures Keyed(db) ==> Keyed(r)
  {
    if row.startTime in db.time then db
    else db.(time := db.time[row.startTime := row])
  }

  /** INSERT INTO users ... ON CONFLICT (user_id) DO UPDATE SET level:
      a new user is stored whole; a known user gets only the new level. */
  function UpsertUser(db: Db, row: UserRow): (r: Db)
    ensures r.users.Keys == db.users.Keys + {row.userId}
    ensures r.users[row.userId].level == row.level
    ensures row.userId !in db.users ==> r.users[row.userId] == row
    ensures row.userId in db.users ==>
      var before, after := db.users[row.userId], r.users[row.userId];
      && after.userId == before.userId
      && after.firstName == before.firstName
      && after.lastName == before.lastName
      && after.gender == before.gender
    ensures forall u :: u in db.users && u != row.userId ==> r.users[u] == db.users[u]
    ensures r.time == db.time && r.songs == db.songs && r.artists == db.artists
    ensures r.songplays == db.songplays
    ensures Keyed(db) ==> Keyed(r)
  {
    if row.userId in db.users then
      db.(users := db.users[row.userId := db.users[row.userId].(level := row.level)])
    else
      db.(users := db.users[row.userId := row])
  }

  /** INSERT INTO songs ... ON CONFLICT (song_id) DO NOTHING. */
  function InsertSong(db: Db, row: SongRow): (r: Db)
    ensures r.songs.Keys == db.songs.Keys + {row.songId}
    ensures forall s :: s in db.songs ==> r.songs[s] == db.songs[s]
    ensures row.songId !in db.songs ==> r.songs[row.songId] == row
    ensures r.time == db.time && r.users == db.users && r.artists == db.artists
    ensures r.songplays == db.songplays
    ensures Keyed(db) ==> Keyed(r)
  {
    if row.songId in db.songs then db
    else db.(songs := db.songs[row.songId := row])
  }

  /** INSERT INTO artists ... ON CONFLICT (artist_id) DO NOTHING. */
  function InsertArtist(db: Db, row: ArtistRow): (r: Db)
    ensures r.artists.Keys == db.artists.Keys + {row.artistId}
    ensures forall a :: a in db.artists ==> r.artists[a] == db.artists[a]
    ensures row.artistId !in db.artists ==> r.artists[row.artistId] == row
    ensures r.time == db.time && r.users == db.users && r.songs == db.songs
    ensures r.songplays == db.songplays
    ensures Keyed(db) ==> Keyed(r)
  {
    if row.artistId in db.artists then db
    else db.(artists := db.artists[row.artistId := row])
  }

  /** INSERT INTO songplays ... ON CONFLICT (start_time, user_id, song_id)
      DO NOTHING: the row is dropped when its key is taken, appended otherwise. */
  function InsertSongplay(db: Db, row: SongplayRow): (r: Db)
    ensures db.songplays <= r.songplays
    ensures HasConflict(db.songplays, row) ==> r == db
    ensures !HasConflict(db.songplays, row) ==> r.songplays == db.songplays + [row]
    ensures row.songId.None? ==> r.songplays == db.songplays + [row]
    ensures row.songId.Some? ==> HasConflict(r.songplays, row)
    ensures r.time == db.time && r.users == db.users && r.songs == db.songs && r.artists == db.artists
    ensures SongplaysUnique(db.songplays) ==> SongplaysUnique(r.songplays)
  {
    if HasConflict(db.songplays, row) then db
    else
      var sp := db.songplays + [row];
      assert row.songId.Some? ==> SameKey(sp[|db.songplays|], row);
      db.(songplays := sp)
  }

  /** Repeating a time insert changes nothing. */
  lemma InsertTimeIdempotent(db: Db, row: TimeRow)
    ensures InsertTime(InsertTime(db, row), row) == InsertTime(db, row)
  {
  }

  /** Repeating a users upsert changes nothing. */
  lemma UpsertUserIdempotent(db: Db, row: UserRow)
    ensures UpsertUser(UpsertUser(db, row), row) == UpsertUser(db, row)
  {
  }

  /** Two upserts for one user: the level is the second one's, the names
      and gender are the ones stored first. */
  lemma UpsertUserTwice(db: Db, first: UserRow, second: UserRow)
    requires first.userId == second.userId
    ensures var r := UpsertUser(UpsertUser(db, first), second);
      var kept := if first.userId in db.users then db.users[first.userId] else first;
      r.users[first.userId] == kept.(level := second.level)
  {
  }

  /** A songplay with a non-NULL `song_id` submitted twice is stored once;
      one with a NULL `song_id` is stored twice. */
  lemma SongplayResubmitted(db: Db, row: SongplayRow)
    ensures var once := InsertSongplay(db, row);
      var twice := InsertSongplay(once, row);
      && (row.songId.Some? ==> twice == once)
      && (row.songId.None? ==> twice.songplays == db.songplays + [row, row])
  {
  }
}
