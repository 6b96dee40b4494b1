/**
 * The load routines of the pipeline: the song-file and log-file loaders,
 * the batched log-file loader, the per-file fold over a directory, and the
 * two-phase run. Files arrive already parsed into records.
 */
module Etl {
  import opened Wrappers
  import opened Schema
  import opened Upserts
  import opened SongSelect

  /** One line of a log file, with the columns the loader reads. `song` is
      the song title and `artist` the artist name. */
  datatype Event = Event(
    page: string,
    ts: Timestamp,
    userId: int,
    firstName: string,
    lastName: string,
    gender: string,
    level: string,
    song: string,
    artist: string,
    sessionId: int,
    location: string,
    userAgent: string)

  /** One line of a song file. */
  datatype SongRecord = SongRecord(
    songId: string,
    title: string,
    artistId: string,
    year: int,
    duration: real,
    artistName: string,
    artistLocation: string,
    artistLatitude: real,
    artistLongitude: real)

  /** What the loader takes from outside code: the calendar fields computed
      for an epoch-ms instant, and the row `fetchone` hands back. */
  datatype Env = Env(calendar: Timestamp -> Calendar, fetchone: Fetch)

  /** A song file without records has no columns, so the column selection
      before `values[0]` raises; a log file
      without lines has no `page` column, so `df['page']` raises. */
  datatype LoadError = EmptySongFile | EmptyLogFile

  /** Where a run over a list of files stops: all files loaded, or an
      exception out of one file, with the tables committed before it. */
  datatype RunOutcome = Completed(db: Db) | Aborted(committed: Db, error: LoadError)

  const NextSong: string := "NextSong"

  /** `execute_batch` sends its statements in pages of this many. */
  const PageSize: nat := 100

  /** `df[df['page'] == 'NextSong']`: the eligible events, in file order. */
  function NextSongs(evs: seq<Event>): (r: seq<Event>)
    ensures |r| <= |evs|
    ensures forall e :: e in r <==> e in evs && e.page == NextSong
    decreases |evs|
  {
    if evs == [] then []
    else (if evs[0].page == NextSong then [evs[0]] else []) + NextSongs(evs[1..])
  }

  /** The time row of an instant: its calendar fields depend on it alone. */
  function TimeRowOf(calendar: Timestamp -> Calendar, ts: Timestamp): TimeRow {
    TimeRow(ts, calendar(ts))
  }

  /** The users record of an event (`userId`, `firstName`, `lastName`,
      `gender`, `level`). */
  function UserRowOf(e: Event): UserRow {
    UserRow(e.userId, e.firstName, e.lastName, e.gender, e.level)
  }

  /** The songplay parameters of an event, given the lookup's result. */
  function SongplayRowOf(e: Event, found: Option<Match>): (r: SongplayRow)
    ensures r.songId.None? <==> found.None?
    ensures r.artistId.None? <==> found.None?
    ensures found.Some? ==> r.songId == Some(found.value.songId) && r.artistId == Some(found.value.artistId)
    ensures && r.startTime == e.ts && r.userId == e.userId && r.level == e.level
            && r.sessionId == e.sessionId && r.location == e.location && r.userAgent == e.userAgent
  {
    match found
    case Some(m) =>
      SongplayRow(e.ts, e.userId, e.level, Some(m.songId), Some(m.artistId), e.sessionId, e.location, e.userAgent)
    case None =>
      SongplayRow(e.ts, e.userId, e.level, None, None, e.sessionId, e.location, e.userAgent)
  }

  /** The songplay the loader builds for an event against the given
      reference tables. */
  function SongplayFor(env: Env, songs: map<string, SongRow>, artists: map<string, ArtistRow>, e: Event): (r: SongplayRow)
    ensures r.songId.None? <==> Matches(songs, artists, e.song, e.artist) == {}
    ensures r.songId.None? <==> r.artistId.None?
    ensures Chooses(env.fetchone) && r.songId.Some? ==>
      Match(r.songId.value, r.artistId.value) in Matches(songs, artists, e.song, e.artist)
    ensures && r.startTime == e.ts && r.userId == e.userId && r.level == e.level
            && r.sessionId == e.sessionId && r.location == e.location && r.userAgent == e.userAgent
  {
    SongplayRowOf(e, Resolve(env.fetchone, songs, artists, e.song, e.artist))
  }

  /** One statement the log loader sends. `SongplayInsert` is the pair of
      round trips made per event: the lookup, then the songplay insert. */
  datatype Command =
    | TimeInsert(time: TimeRow)
    | UserInsert(user: UserRow)
    | SongplayInsert(event: Event)

  function Apply(env: Env, db: Db, c: Command): (r: Db)
    ensures r.songs == db.songs && r.artists == db.artists
    ensures db.songplays <= r.songplays
    ensures WellFormed(db) ==> WellFormed(r)
    ensures NullsPaired(db.songplays) ==> NullsPaired(r.songplays)
  {
    match c
    case TimeInsert(t) => InsertTime(db, t)
    case UserInsert(u) => UpsertUser(db, u)
    case SongplayInsert(e) => InsertSongplay(db, SongplayFor(env, db.songs, db.artists, e))
  }

  /** Sends the statements one at a time, in order. No statement writes the
      songs or artists tables, and songplays only ever grow. */
  function Run(env: Env, db: Db, cs: seq<Command>): (r: Db)
    ensures r.songs == db.songs && r.artists == db.artists
    ensures db.songplays <= r.songplays
    ensures WellFormed(db) ==> WellFormed(r)
    ensures NullsPaired(db.songplays) ==> NullsPaired(r.songplays)
    decreases |cs|
  {
    if cs == [] then db else Run(env, Apply(env, db, cs[0]), cs[1..])
  }

  /** `execute_batch`: the statements go out in pages, each page one
      multi-statement round trip. */
  function ExecuteBatch(env: Env, db: Db, cs: seq<Command>, pageSize: nat): (r: Db)
    requires pageSize > 0
    ensures r.songs == db.songs && r.artists == db.artists
    ensures db.songplays <= r.songplays
    ensures WellFormed(db) ==> WellFormed(r)
    ensures NullsPaired(db.songplays) ==> NullsPaired(r.songplays)
    decreases |cs|
  {
    if |cs| <= pageSize then Run(env, db, cs)
    else ExecuteBatch(env, Run(env, db, cs[..pageSize]), cs[pageSize..], pageSize)
  }

  /** One time insert per eligible event (duplicates included). */
  function TimeCommands(calendar: Timestamp -> Calendar, es: seq<Event>): (r: seq<Command>)
    ensures |r| == |es|
    ensures forall i :: 0 <= i < |es| ==> r[i] == TimeInsert(TimeRowOf(calendar, es[i].ts))
    decreases |es|
  {
    if es == [] then [] else [TimeInsert(TimeRowOf(calendar, es[0].ts))] + TimeCommands(calendar, es[1..])
  }

  /** One users upsert per eligible event (not de-duplicated). */
  function UserCommands(es: seq<Event>): (r: seq<Command>)
    ensures |r| == |es|
    ensures forall i :: 0 <= i < |es| ==> r[i] == UserInsert(UserRowOf(es[i]))
    decreases |es|
  {
    if es == [] then [] else [UserInsert(UserRowOf(es[0]))] + UserCommands(es[1..])
  }

  /** One lookup-and-insert per eligible event. */
  function SongplayCommands(es: seq<Event>): (r: seq<Command>)
    ensures |r| == |es|
    ensures forall i :: 0 <= i < |es| ==> r[i] == SongplayInsert(es[i])
    decreases |es|
  {
    if es == [] then [] else [SongplayInsert(es[0])] + SongplayCommands(es[1..])
  }

  /** The statements `process_log_file` sends for one file: every time
      insert, then every users upsert, then one songplay lookup-and-insert
      per eligible event, each phase in file order. */
  function LogFileCommands(calendar: Timestamp -> Calendar, evs: seq<Event>): (r: seq<Command>)
    ensures var es := NextSongs(evs); var n := |es|;
      && |r| == 3 * n
      && (forall i :: 0 <= i < n ==> r[i] == TimeInsert(TimeRowOf(calendar, es[i].ts)))
      && (forall i :: 0 <= i < n ==> r[n + i] == UserInsert(UserRowOf(es[i])))
      && (forall i :: 0 <= i < n ==> r[2 * n + i] == SongplayInsert(es[i]))
  {
    var es := NextSongs(evs);
    TimeCommands(calendar, es) + UserCommands(es) + SongplayCommands(es)
  }

  /** `process_log_file`: every statement sent singly. The exception a
      file without lines raises is modelled in `LogStep`. */
  function ProcessLogFile(env: Env, db: Db, evs: seq<Event>): (r: Db)
    ensures r.songs == db.songs && r.artists == db.artists
    ensures WellFormed(db) ==> WellFormed(r)
    ensures NullsPaired(db.songplays) ==> NullsPaired(r.songplays)
  {
    Run(env, db, LogFileCommands(env.calendar, evs))
  }

  /** `process_log_data_batch`: time and users records through
      `execute_batch`, songplays still one event at a time. */
  function ProcessLogDataBatch(env: Env, db: Db, evs: seq<Event>): (r: Db)
    ensures r.songs == db.songs && r.artists == db.artists
    ensures WellFormed(db) ==> WellFormed(r)
    ensures NullsPaired(db.songplays) ==> NullsPaired(r.songplays)
  {
    var es := NextSongs(evs);
    var afterTime := ExecuteBatch(env, db, TimeCommands(env.calendar, es), PageSize);
    var afterUsers := ExecuteBatch(env, afterTime, UserCommands(es), PageSize);
    Run(env, afterUsers, SongplayCommands(es))
  }

  function SongRowOf(rec: SongRecord): SongRow {
    SongRow(rec.songId, rec.title, rec.artistId, rec.year, rec.duration)
  }

  function ArtistRowOf(rec: SongRecord): ArtistRow {
    ArtistRow(rec.artistId, rec.artistName, rec.artistLocation, rec.artistLatitude, rec.artistLongitude)
  }

  /** `process_song_file`: one song insert and one artist insert, both from
      the file's first record; a file without records raises. */
  function ProcessSongFile(db: Db, recs: seq<SongRecord>): (r: Result<Db, LoadError>)
    ensures r.Failure? <==> recs == []
    ensures r.Success? ==>
      var song, artist, d := SongRowOf(recs[0]), ArtistRowOf(recs[0]), r.value;
      && d.time == db.time && d.users == db.users && d.songplays == db.songplays
      && d.songs.Keys == db.songs.Keys + {song.songId}
      && d.songs[song.songId] == (if song.songId in db.songs then db.songs[song.songId] else song)
      && d.artists.Keys == db.artists.Keys + {artist.artistId}
      && d.artists[artist.artistId] == (if artist.artistId in db.artists then db.artists[artist.artistId] else artist)
      && (forall s :: s in db.songs ==> d.songs[s] == db.songs[s])
      && (forall a :: a in db.artists ==> d.artists[a] == db.artists[a])
      && (WellFormed(db) ==> WellFormed(d))
  {
    if recs == [] then Failure(EmptySongFile)
    else Success(InsertArtist(InsertSong(db, SongRowOf(recs[0])), ArtistRowOf(recs[0])))
  }

  /** `process_data`: a left fold of `process` over the files, committing
      after each. An exception out of a file ends the run; the tables keep
      what the earlier files committed. */
  function ProcessData<F>(db: Db, files: seq<F>, process: (Db, F) -> Result<Db, LoadError>): (r: RunOutcome)
    ensures r.Aborted? ==>
      exists k :: && 0 <= k < |files|
                  && ProcessData(db, files[..k], process) == Completed(r.committed)
                  && process(r.committed, files[k]) == Failure(r.error)
    decreases |files|
  {
    if files == [] then Completed(db)
    else match process(db, files[0])
      case Failure(e) =>
        assert files[..0] == [];
        Aborted(db, e)
      case Success(d) =>
        var rest := ProcessData(d, files[1..], process);
        assert rest.Aborted? ==>
          exists k :: && 0 <= k < |files|
                      && ProcessData(db, files[..k], process) == Completed(rest.committed)
                      && process(rest.committed, files[k]) == Failure(rest.error) by {
          if rest.Aborted? {
            var k :| 0 <= k < |files[1..]|
              && ProcessData(d, files[1..][..k], process) == Completed(rest.committed)
              && process(rest.committed, files[1..][k]) == Failure(rest.error);
            var done := files[..k + 1];
            assert done[0] == files[0] && done[1..] == files[1..][..k];
            assert ProcessData(db, done, process) == ProcessData(d, done[1..], process);
            assert files[1..][k] == files[k + 1];
          }
        }
        rest
  }

  /** The log-file routine `process_data` is handed, per-row or batched,
      including the read that raises on a file without lines. */
  function LogStep(env: Env, batched: bool): (step: (Db, seq<Event>) -> Result<Db, LoadError>)
    ensures forall db, evs :: step(db, evs).Failure? <==> evs == []
    ensures forall db, evs :: step(db, evs).Failure? ==> step(db, evs).error == EmptyLogFile
    ensures forall db, evs :: step(db, evs).Success? ==>
      var d := step(db, evs).value;
      && d.songs == db.songs && d.artists == db.artists
      && (WellFormed(db) ==> WellFormed(d))
  {
    (db: Db, evs: seq<Event>) =>
      if evs == [] then Failure(EmptyLogFile)
      else Success(if batched then ProcessLogDataBatch(env, db, evs) else ProcessLogFile(env, db, evs))
  }

  /** `main`: every song file, then every log file. A run that stops names
      the kind of file that stopped it, and such a file is in the input. */
  function RunPipeline(env: Env, db: Db, songFiles: seq<seq<SongRecord>>, logFiles: seq<seq<Event>>, batched: bool): (r: RunOutcome)
    ensures r.Aborted? && r.error == EmptySongFile ==> exists i :: 0 <= i < |songFiles| && songFiles[i] == []
    ensures r.Aborted? && r.error == EmptyLogFile ==> exists i :: 0 <= i < |logFiles| && logFiles[i] == []
  {
    match ProcessData(db, songFiles, ProcessSongFile)
    case Aborted(c, e) => Aborted(c, e)
    case Completed(d) => ProcessData(d, logFiles, LogStep(env, batched))
  }
}
