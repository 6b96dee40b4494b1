# Sparkify ETL load routines in Dafny

This project models the load logic of a small ETL pipeline. The pipeline reads song-metadata files and user-activity log files and fills an analytics schema in PostgreSQL. The schema has a `songplays` fact table and four dimension tables: `users`, `songs`, `artists` and `time`.

The database is replaced by an in-memory value, `Schema.Db`. Each dimension table is a map keyed by its primary key: `time` by `start_time`, `users` by `user_id`, `songs` by `song_id`, `artists` by `artist_id`. `songplays` is a sequence of rows in insertion order.

Each `INSERT ... ON CONFLICT` statement is a pure function (module `Upserts`):

- `time`, `songs`, `artists` and `songplays` use `DO NOTHING`.
- `users` uses `DO UPDATE SET level`.
- The songplays conflict target is `UNIQUE (start_time, user_id, song_id)`. PostgreSQL never treats two NULLs as equal in a unique constraint. So a songplay whose `song_id` is NULL never conflicts and is always appended.

The `song_select` join and `fetchone` are in module `SongSelect`. Which row `fetchone` returns when several match is up to the query plan. It is therefore a parameter of the model (`Env.fetchone`). `Chooses` states what the contracts assume about it: it returns a member of the non-empty result. Being a function, it also gives the same answer whenever it sees the same result set, including across loads; the lemmas that compare two loads with one `Env` rely on that (see "## Left out").

The load routines are in module `Etl`:

- `process_log_file` turns a file into a list of statements, `LogFileCommands`: every time insert, then every users upsert, then one lookup-and-insert per `NextSong` event. `Run` sends that list one statement at a time.
- `process_log_data_batch` sends the time and users statements through `execute_batch`, in pages of 100 (`ExecuteBatch`).
- `process_song_file` inserts one song row and one artist row, both from the file's first record.
- `process_data` is a left fold over the files. It stops at the first exception.
- `main` runs the song files and then the log files (`RunPipeline`).

The calendar columns (hour, day, week, month, year, weekday) come from pandas. They are a parameter, `Env.calendar`, applied to the event's epoch-millisecond timestamp. The model relies only on the fact that they depend on that timestamp alone.

`start_time` and `user_id` are `NOT NULL` columns. In `SongplayRow` they are plain values, so every stored songplay has both by construction.

Module `EtlProofs` relates the routines to one another and to reference definitions:

- The batched and per-row loaders leave identical tables.
- Dropping an event whose `page` is not `NextSong` changes nothing, as long as the file keeps at least one line.
- What one log file does to each table, stated against `ExpectedUser` and `Stamps`.
- What a second load of the same file adds.
- How `process_data` composes over lists of files.

Some behaviour of the code, stated plainly:

- The code sends one time insert per eligible event, duplicates included, and the `DO NOTHING` conflict policy collapses them. `TimeCommands` sends one per event; `EtlProofs.LogFileTimeTable` proves the table still ends with one row per instant.
- A song file is read whole and only its first record is used (`values[0]`). An empty song file has no columns, so the column selection before `values[0]` raises. Nothing catches the exception, so the whole run stops. `ProcessSongFile` and `ProcessData` model this.
- A log file without lines has no `page` column, so the `NextSong` filter raises a `KeyError` and the run stops. `LogStep` models this with the error `EmptyLogFile`.
- The code handles no errors. The only failures modelled are these two, which the code itself causes.

## Model

| member | source | states |
|---|---|---|
| Upserts.InsertTime | src/sql_queries.py:92-102 | The time table gains the row's `start_time` as a key. A `start_time` already stored keeps its old row. A new one stores the row. No other table changes, and rows stay keyed by their own `start_time`. |
| Upserts.UpsertUser | src/sql_queries.py:67-75 | `user_id` becomes a key, and its row's level is the incoming level. A new user is stored whole. An existing user keeps its id, first name, last name and gender. Other users and other tables are untouched. |
| Upserts.InsertSong | src/sql_queries.py:77-82 | First write wins. An existing `song_id` row is never overwritten; a new `song_id` stores the row. No other table changes. |
| Upserts.InsertArtist | src/sql_queries.py:84-89 | First write wins. An existing `artist_id` row is never overwritten; a new `artist_id` stores the row. No other table changes. |
| Upserts.InsertSongplay | src/sql_queries.py:60-65 | A row whose non-NULL key is already stored is dropped. Otherwise it is appended. A NULL `song_id` row is always appended. Earlier rows stay in place, and the uniqueness constraint is preserved. |
| Upserts.InsertTimeIdempotent | src/sql_queries.py:92-102 | Repeating a time insert changes nothing. |
| Upserts.UpsertUserIdempotent | src/sql_queries.py:67-75 | Repeating a users upsert changes nothing. |
| Upserts.UpsertUserTwice | src/sql_queries.py:67-75 | After two upserts for one user, the level is the second one's. The names and gender are the stored row's, or the first upsert's if the user was new. |
| Upserts.SongplayResubmitted | src/sql_queries.py:11-22 | Resubmitting a songplay with a non-NULL `song_id` is a no-op. Resubmitting one with a NULL `song_id` stores it twice. |
| SongSelect.MatchesExactly | src/sql_queries.py:106-110 | The join returns exactly the `(song_id, artist_id)` pairs where the song has the title and an artists row with that id has the name. |
| SongSelect.OrphanSongNeverMatches | src/sql_queries.py:106-110 | A song with no artists row for its `artist_id` is never returned. |
| SongSelect.Matches | src/sql_queries.py:106-110 | Every result row is the `(song_id, artist_id)` of a stored song with the title, joined to a stored artist with that id and the name. `SongSelect.MatchesExactly` gives the converse. |
| SongSelect.Resolve | src/etl.py:80-86 | The lookup is NULL exactly when the join is empty. Otherwise it is one of the join's rows. |
| EtlProofs.SameResolution | src/etl.py:80-86 | Two lookups that each return a row of the result agree whenever the join has at most one row. |
| SongSelect.AbsentPairUnresolved | src/etl.py:80-86 | A title no song has, or an artist name no artist has, resolves to NULL. |
| Etl.NextSongs | src/etl.py:51-52 | An event is kept exactly when it is in the file and its page is `NextSong`. |
| Etl.SongplayRowOf | src/etl.py:83-89 | `song_id` and `artist_id` are both NULL exactly when the lookup found nothing; otherwise they are the found row's. The songplay carries the event's `ts`, `userId`, `level`, `sessionId`, `location` and `userAgent` unchanged. |
| Etl.SongplayFor | src/etl.py:80-89 | The event's songplay has NULL ids exactly when the join for its title and artist is empty. Otherwise, under `Chooses`, its ids are a row of that join. Time, user, level, session, location and user agent come from the event. |
| Etl.Apply | src/etl.py:63-90 | No statement of the log loader writes songs or artists. Songplays only grow. The schema's constraints and the pairing of NULL ids are preserved. |
| Etl.Run | src/etl.py:63-90 | Sending any list of log-loader statements keeps songs and artists unchanged and songplays growing. It preserves the constraints and the NULL pairing. |
| Etl.LogFileCommands | src/etl.py:51-90 | A file's statements are: one time insert per NextSong event, then one users upsert per event, then one songplay lookup-and-insert per event. Each phase is in file order; nothing else is sent. |
| Etl.ExecuteBatch | src/etl.py:118-126 | Sending statements in pages keeps songs and artists unchanged and songplays growing. It preserves the constraints and the NULL pairing. `EtlProofs.BatchMatchesRun` proves it equals sending them one by one. |
| Etl.TimeCommands | src/etl.py:63-64 | One time insert per NextSong event, in file order, with the calendar row of that event's instant. Duplicates are kept. |
| Etl.UserCommands | src/etl.py:73-74 | One users upsert per NextSong event, in file order, with the event's id, names, gender and level. Repeated users are kept. |
| Etl.SongplayCommands | src/etl.py:77-90 | One lookup-and-insert per NextSong event, in file order. |
| Etl.ProcessLogFile | src/etl.py:37-90 | Loading a log file never changes songs or artists. It preserves the schema's constraints and the NULL pairing of songplay ids. |
| Etl.ProcessLogDataBatch | src/etl.py:92-142 | The batched loader never changes songs or artists, and preserves the constraints and the NULL pairing. `EtlProofs.BatchedEqualsRowByRow` proves it leaves the same tables as `process_log_file`. |
| Etl.LogStep | src/etl.py:49-52 | A log file fails to load exactly when it has no lines, and then with `EmptyLogFile`. A successful load keeps songs and artists and the constraints. |
| Etl.ProcessSongFile | src/etl.py:14-34 | An empty file raises. Otherwise the first record's song and artist are inserted first-write-wins, and time, users and songplays are untouched. |
| Etl.ProcessData | src/etl.py:171-174 | A run that stops does so at the first file that raises. The committed tables are exactly what the files before it leave, and that file raises when loaded from them. |
| Etl.RunPipeline | src/etl.py:201-223 | A run of `main` that stops on a song-file error has an empty song file in its input. One that stops on a log-file error has an empty log file. `EtlProofs.PipelineOutcome` gives the full condition for completing. |
| EtlProofs.RunAppend | src/etl.py:63-90 | Sending `a` and then `b` is the same as sending `a + b`. |
| EtlProofs.BatchMatchesRun | src/etl.py:118-126 | Sending statements in pages of any positive size leaves the same tables as sending them one by one. |
| EtlProofs.BatchedEqualsRowByRow | src/etl.py:92-142 | The batched and per-row log loaders leave identical tables from the same start and input. |
| EtlProofs.NextSongsAppend | src/etl.py:51-52 | The filter keeps the file order: filtering a concatenation concatenates the filtered parts. |
| EtlProofs.OtherPagesIgnored | src/etl.py:49-52 | Removing a non-NextSong event from anywhere in a file does not change what `process_log_file` sends. It does not change what either loader does either, provided the file keeps at least one line. If it was the only line, a load that wrote nothing becomes the exception of a file without lines. |
| EtlProofs.NoNextSongNoWrites | src/etl.py:104-107 | A file without NextSong events leaves every table unchanged, in both loaders. |
| EtlProofs.LogFileTimeTable | src/etl.py:54-64 | After a log file, the time keys are the old keys plus the NextSong instants. Old rows are unchanged, and each new row is the calendar row of its own instant. |
| EtlProofs.LogFileUsers | src/etl.py:66-74 | After a log file, each user matches `ExpectedUser`. That is the stored row, or the row from the user's first event if the user is new, with the level of the user's last event. Users without events are unchanged. |
| EtlProofs.SingleEventUser | src/etl.py:66-74 | A one-event file stores the event's user, or only updates the level of a user already stored. |
| EtlProofs.LevelOfLaterFileWins | src/etl.py:66-74 | A new user loaded as "free" in one file and "paid" in the next ends as "paid", with the first event's names and gender. |
| EtlProofs.LogFileSongplays | src/etl.py:76-90 | After a log file, earlier songplays are kept in place. Every NextSong event has its row, or a row with its key, built from lookups in the reference tables as they were when the file began. Every new row is some event's row. At least one row per unresolved event is added, and at most one per event. |
| EtlProofs.ReplaySongplays | src/sql_queries.py:60-65 | If every event's row, or a row with its key, is already stored, replaying the events adds exactly one row per unresolved event, and every added row is a copy of a stored one. |
| EtlProofs.RerunLogFile | src/etl.py:37-142 | Loading a log file with `process_log_file` and at once loading it again with `process_log_data_batch` leaves time and users as the first load left them. Songplays only grow, by at least one row per NextSong event whose title and artist match nothing. The two loads may break lookup ties differently. When no event matches more than one join row, exactly those rows are added, each a copy of a row the first load stored. |
| EtlProofs.ProcessDataAppend | src/etl.py:171-174 | `process_data` over `a + b` equals `process_data` over `b` started where `a` ended, unless `a` already raised. |
| EtlProofs.LogPhaseOutcome | src/etl.py:145-174 | Over log files `process_data` completes exactly when no file is empty. Whether it completes or stops, it leaves songs and artists unchanged and keeps the constraints. |
| EtlProofs.LogRunsAgree | src/etl.py:219-220 | `process_data` with the batched loader and with the per-row loader give the same outcome on the same files. |
| EtlProofs.SongPhaseOutcome | src/etl.py:14-34 | Over song files `process_data` completes exactly when no file is empty. It then changes only songs and artists, and keeps the constraints. |
| EtlProofs.PipelineOutcome | src/etl.py:200-223 | `main` completes exactly when every song file has a record and every log file has a line. The log phase uses the reference tables the song phase built. Batched and per-row pipelines end in the same state. |

## Left out

- JSON reading and DataFrame mechanics (`pd.read_json`, column selection, renames, `iterrows`, `to_dict`). Files arrive as sequences of parsed records. A log file whose lines lack a `page` field is not modelled; an `Event` always has one.
- Calendar arithmetic (`pd.to_datetime` and `.dt.hour` and the other fields). This is foreign library code, so it is the uninterpreted parameter `Env.calendar`.
- The row `fetchone` picks among several matches. The query plan decides, so it is the parameter `Env.fetchone`.
- File discovery (`os.walk`, `glob`), `tqdm`, the `time_profile` decorator and `memory_profiler`. These are I/O and instrumentation.
- The psycopg2 connection, cursor, `commit` and `close`, transaction atomicity and crash behaviour. An aborted run keeps the tables as committed before the failing file. The only failure modelled occurs before that file sends any statement.
- Table creation and dropping, and the `SERIAL` `songplayid` values. A songplay's position in the sequence stands for its insertion order.
- NaN and type coercion, and database error paths such as a malformed `userId`. Nothing in the code handles them. Numeric columns (`duration`, latitude, longitude) are opaque `real` values.
- The range and microsecond precision of PostgreSQL `TIMESTAMP`. `start_time` is the epoch-millisecond integer itself.
- The `__main__` block's second call of `main` (src/etl.py:228-230) is not modelled. It reloads every song file and then every log file, so users can change between two loads of one file. `EtlProofs.RerunLogFile` covers only a log file reloaded immediately after its first load.
- EtlProofs.LogFileSongplays: bounds the number of added rows from below by the unresolved events and from above by all events, instead of giving an exact count. The exact count depends on key collisions between events of the same file. `EtlProofs.RerunLogFile` gives the exact count for an immediate second load when every lookup has at most one match.
- SongSelect.Resolve: that the returned row belongs to the result is stated only under `Chooses(fetch)`, the assumption that `fetchone` returns a row of its result.
- EtlProofs.BatchedEqualsRowByRow: both loaders run with one `Env`, so their lookups make the same choice for the same result set. PostgreSQL promises no such thing when a title and artist name match several join rows; the equality is proved under that sameness.
- EtlProofs.LogRunsAgree: proved with one `Env` for both runs, so with the same `fetchone` choice for the same result set, as for `EtlProofs.BatchedEqualsRowByRow`.
- EtlProofs.PipelineOutcome: the batched and per-row pipelines are equal under one `Env`, so with the same `fetchone` choice for the same result set, as for `EtlProofs.BatchedEqualsRowByRow`.
