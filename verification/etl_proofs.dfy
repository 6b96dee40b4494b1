/**
 * Properties of the load routines: what one log file does to each table,
 * why the batched loader ends where the per-row one does, what a second
 * run over the same file adds, and how `process_data` folds over files.
 */
module EtlProofs {
  import opened Wrappers
  import opened Schema
  import opened Upserts
  import opened SongSelect
  import opened Etl

  // ---------------------------------------------------------------------
  // Sending statements

  /** Sending `a` then `b` is sending `a + b`. */
  lemma {:induction false} RunAppend(env: Env, db: Db, a: seq<Command>, b: seq<Command>)
    ensures Run(env, db, a + b) == Run(env, Run(env, db, a), b)
    decreases |a|
  {
    if a == [] {
      assert a + b == b;
    } else {
      assert (a + b)[0] == a[0];
      assert (a + b)[1..] == a[1..] + b;
      RunAppend(env, Apply(env, db, a[0]), a[1..], b);
    }
  }

  /** Paging the statements does not change what they do. */
  lemma {:induction false} BatchMatchesRun(env: Env, db: Db, cs: seq<Command>, pageSize: nat)
    requires pageSize > 0
    ensures ExecuteBatch(env, db, cs, pageSize) == Run(env, db, cs)
    decreases |cs|
  {
    if |cs| > pageSize {
      assert cs == cs[..pageSize] + cs[pageSize..];
      RunAppend(env, db, cs[..pageSize], cs[pageSize..]);
      BatchMatchesRun(env, Run(env, db, cs[..pageSize]), cs[pageSize..], pageSize);
    }
  }

  /** A log file is loaded in three phases: time, users, songplays. */
  lemma LogFilePhases(env: Env, db: Db, evs: seq<Event>)
    ensures var es := NextSongs(evs);
      ProcessLogFile(env, db, evs)
        == Run(env, Run(env, Run(env, db, TimeCommands(env.calendar, es)), UserCommands(es)), SongplayCommands(es))
  {
    var es := NextSongs(evs);
    var t, u, s := TimeCommands(env.calendar, es), UserCommands(es), SongplayCommands(es);
    RunAppend(env, db, t + u, s);
    RunAppend(env, db, t, u);
  }

  /** `process_log_data_batch` and `process_log_file` leave the same tables. */
  lemma BatchedEqualsRowByRow(env: Env, db: Db, evs: seq<Event>)
    ensures ProcessLogDataBatch(env, db, evs) == ProcessLogFile(env, db, evs)
  {
    var es := NextSongs(evs);
    var t, u := TimeCommands(env.calendar, es), UserCommands(es);
    BatchMatchesRun(env, db, t, PageSize);
    BatchMatchesRun(env, Run(env, db, t), u, PageSize);
    LogFilePhases(env, db, evs);
  }

  // ---------------------------------------------------------------------
  // The NextSong filter

  /** The filter keeps order: filtering a concatenation concatenates. */
  lemma {:induction false} NextSongsAppend(a: seq<Event>, b: seq<Event>)
    ensures NextSongs(a + b) == NextSongs(a) + NextSongs(b)
    decreases |a|
  {
    if a == [] {
      assert a + b == b;
    } else {
      assert (a + b)[0] == a[0];
      assert (a + b)[1..] == a[1..] + b;
      NextSongsAppend(a[1..], b);
    }
  }

  /** The filter drops an event of another page wherever it stands. */
  lemma SkipOtherPage(a: seq<Event>, x: Event, b: seq<Event>)
    requires x.page != NextSong
    ensures NextSongs(a + [x] + b) == NextSongs(a + b)
  {
    assert NextSongs([x]) == [] by {
      assert [x][1..] == [];
    }
    NextSongsAppend(a + [x], b);
    NextSongsAppend(a, [x]);
    NextSongsAppend(a, b);
  }

  /** An event that is not a NextSong can be dropped from a file anywhere
      without changing what `process_log_file` sends. */
  lemma SkipOtherPageLoad(env: Env, db: Db, a: seq<Event>, x: Event, b: seq<Event>)
    requires x.page != NextSong
    ensures ProcessLogFile(env, db, a + [x] + b) == ProcessLogFile(env, db, a + b)
  {
    SkipOtherPage(a, x, b);
    assert LogFileCommands(env.calendar, a + [x] + b) == LogFileCommands(env.calendar, a + b);
  }

  /** Dropping an event that is not a NextSong changes nothing the loaders
      do, in either mode, as long as the file keeps a line. Dropping a
      file's only line turns a load that writes nothing into the exception
      of a file without lines. */
  lemma OtherPagesIgnored(env: Env, db: Db, a: seq<Event>, x: Event, b: seq<Event>, batched: bool)
    requires x.page != NextSong
    ensures ProcessLogFile(env, db, a + [x] + b) == ProcessLogFile(env, db, a + b)
    ensures a + b != [] ==> LogStep(env, batched)(db, a + [x] + b) == LogStep(env, batched)(db, a + b)
    ensures a + b == [] ==>
      && LogStep(env, batched)(db, a + [x] + b) == Success(db)
      && LogStep(env, batched)(db, a + b) == Failure(EmptyLogFile)
  {
    SkipOtherPageLoad(env, db, a, x, b);
    BatchedEqualsRowByRow(env, db, a + [x] + b);
    BatchedEqualsRowByRow(env, db, a + b);
    if a + b == [] {
      assert NextSongs(a + b) == [];
    }
  }

  lemma {:induction false} NothingEligible(evs: seq<Event>)
    requires forall e :: e in evs ==> e.page != NextSong
    ensures NextSongs(evs) == []
    decreases |evs|
  {
    if evs != [] {
      assert evs[0] in evs;
      assert forall e :: e in evs[1..] ==> e in evs;
      NothingEligible(evs[1..]);
    }
  }

  /** A file without NextSong events writes nothing, in either mode. */
  lemma NoNextSongNoWrites(env: Env, db: Db, evs: seq<Event>)
    requires forall e :: e in evs ==> e.page != NextSong
    ensures ProcessLogFile(env, db, evs) == db
    ensures ProcessLogDataBatch(env, db, evs) == db
  {
    NothingEligible(evs);
    BatchedEqualsRowByRow(env, db, evs);
  }

  // ---------------------------------------------------------------------
  // The time table

  /** The instants of the given events. */
  function Stamps(es: seq<Event>): set<Timestamp> {
    set e | e in es :: e.ts
  }

  lemma StampsCons(es: seq<Event>)
    requires es != []
    ensures Stamps(es) == {es[0].ts} + Stamps(es[1..])
  {
    assert es == [es[0]] + es[1..];
    forall e | e in es ensures e == es[0] || e in es[1..] { }
  }

  lemma {:induction false} RunTimeCommands(env: Env, db: Db, es: seq<Event>)
    ensures var r := Run(env, db, TimeCommands(env.calendar, es));
      && r.time.Keys == db.time.Keys + Stamps(es)
      && (forall t :: t in db.time ==> r.time[t] == db.time[t])
      && (forall t :: t in r.time && t !in db.time ==> r.time[t] == TimeRowOf(env.calendar, t))
      && r.users == db.users && r.songplays == db.songplays
    decreases |es|
  {
    if es != [] {
      var cs := TimeCommands(env.calendar, es);
      assert cs[1..] == TimeCommands(env.calendar, es[1..]);
      var db1 := InsertTime(db, TimeRowOf(env.calendar, es[0].ts));
      assert Run(env, db, cs) == Run(env, db1, cs[1..]);
      RunTimeCommands(env, db1, es[1..]);
      StampsCons(es);
      var r := Run(env, db1, cs[1..]);
      forall t | t in r.time && t !in db.time ensures r.time[t] == TimeRowOf(env.calendar, t) {
        if t in db1.time {
          assert t == es[0].ts;
        }
      }
    }
  }

  /** After a log file the time table holds every instant it held before,
      unchanged, plus one row per distinct NextSong instant, whose calendar
      fields are those of that instant alone. */
  lemma LogFileTimeTable(env: Env, db: Db, evs: seq<Event>)
    ensures var r, es := ProcessLogFile(env, db, evs), NextSongs(evs);
      && r.time.Keys == db.time.Keys + Stamps(es)
      && (forall t :: t in db.time ==> r.time[t] == db.time[t])
      && (forall t :: t in r.time && t !in db.time ==> r.time[t] == TimeRowOf(env.calendar, t))
  {
    var es := NextSongs(evs);
    LogFilePhases(env, db, evs);
    RunTimeCommands(env, db, es);
    var d1 := Run(env, db, TimeCommands(env.calendar, es));
    RunUserCommands(env, d1, es);
    var d2 := Run(env, d1, UserCommands(es));
    RunSongplayCommands(env, d2, es);
  }

  // ---------------------------------------------------------------------
  // The users table

  /** The earliest event of `uid` in the file. */
  function FirstEvent(es: seq<Event>, uid: int): Option<Event>
    decreases |es|
  {
    if es == [] then None
    else if es[0].userId == uid then Some(es[0])
    else FirstEvent(es[1..], uid)
  }

  /** The level of the latest event of `uid` in the file. */
  function LastLevel(es: seq<Event>, uid: int): Option<string>
    decreases |es|
  {
    if es == [] then None
    else if es[|es| - 1].userId == uid then Some(es[|es| - 1].level)
    else LastLevel(es[..|es| - 1], uid)
  }

  /** The users row `uid` should end with: the row already stored, or the
      one built from the user's first event, carrying the level of the
      user's last event. */
  function ExpectedUser(users: map<int, UserRow>, es: seq<Event>, uid: int): Option<UserRow> {
    var base :=
      if uid in users then Some(users[uid])
      else if FirstEvent(es, uid).Some? then Some(UserRowOf(FirstEvent(es, uid).value))
      else None;
    if base.None? then None
    else if LastLevel(es, uid).Some? then Some(base.value.(level := LastLevel(es, uid).value))
    else base
  }

  lemma {:induction false} FirstEventSnoc(es: seq<Event>, x: Event, uid: int)
    ensures FirstEvent(es + [x], uid)
      == if FirstEvent(es, uid).Some? then FirstEvent(es, uid)
         else if x.userId == uid then Some(x) else None
    decreases |es|
  {
    if es == [] {
      assert es + [x] == [x];
    } else {
      assert (es + [x])[0] == es[0];
      assert (es + [x])[1..] == es[1..] + [x];
      FirstEventSnoc(es[1..], x, uid);
    }
  }

  /** A user has a first event exactly when it has a last one. */
  lemma {:induction false} FirstIffLast(es: seq<Event>, uid: int)
    ensures FirstEvent(es, uid).None? <==> LastLevel(es, uid).None?
    decreases |es|
  {
    if es != [] {
      var pre, last := es[..|es| - 1], es[|es| - 1];
      assert es == pre + [last];
      FirstEventSnoc(pre, last, uid);
      FirstIffLast(pre, uid);
    }
  }

  lemma UserCommandsSnoc(es: seq<Event>, x: Event)
    ensures UserCommands(es + [x]) == UserCommands(es) + [UserInsert(UserRowOf(x))]
  {
    var l, r := UserCommands(es + [x]), UserCommands(es) + [UserInsert(UserRowOf(x))];
    assert |l| == |r|;
    forall i | 0 <= i < |l| ensures l[i] == r[i] {
      if i < |es| { assert (es + [x])[i] == es[i]; }
    }
  }

  /** One more upsert moves a user's row along the reference definition. */
  lemma UserStep(users: map<int, UserRow>, m: Db, pre: seq<Event>, last: Event, uid: int)
    requires Get(m.users, uid) == ExpectedUser(users, pre, uid)
    ensures Get(UpsertUser(m, UserRowOf(last)).users, uid) == ExpectedUser(users, pre + [last], uid)
  {
    var es := pre + [last];
    assert es[..|es| - 1] == pre;
    FirstEventSnoc(pre, last, uid);
    assert LastLevel(es, uid) == (if last.userId == uid then Some(last.level) else LastLevel(pre, uid));
    if last.userId == uid && uid !in m.users {
      FirstIffLast(pre, uid);
    }
  }

  lemma {:induction false} RunUserCommands(env: Env, db: Db, es: seq<Event>)
    ensures var r := Run(env, db, UserCommands(es));
      && (forall uid :: Get(r.users, uid) == ExpectedUser(db.users, es, uid))
      && r.time == db.time && r.songplays == db.songplays
    decreases |es|
  {
    if es == [] {
      forall uid ensures Get(db.users, uid) == ExpectedUser(db.users, es, uid) { }
    } else {
      var pre, last := es[..|es| - 1], es[|es| - 1];
      assert es == pre + [last];
      var c := UserInsert(UserRowOf(last));
      UserCommandsSnoc(pre, last);
      RunAppend(env, db, UserCommands(pre), [c]);
      RunUserCommands(env, db, pre);
      var m := Run(env, db, UserCommands(pre));
      assert Run(env, m, [c]) == Apply(env, m, c) by {
        assert [c][1..] == [];
      }
      forall uid ensures Get(UpsertUser(m, UserRowOf(last)).users, uid) == ExpectedUser(db.users, es, uid) {
        UserStep(db.users, m, pre, last, uid);
      }
    }
  }

  /** After a log file, each user's row is the row stored before (or the
      one built from the user's first event, if it is new) with the level
      of the user's last event; users without events keep their row. */
  lemma LogFileUsers(env: Env, db: Db, evs: seq<Event>)
    ensures forall uid :: Get(ProcessLogFile(env, db, evs).users, uid) == ExpectedUser(db.users, NextSongs(evs), uid)
  {
    var es := NextSongs(evs);
    LogFilePhases(env, db, evs);
    var d1 := Run(env, db, TimeCommands(env.calendar, es));
    RunTimeCommands(env, db, es);
    RunUserCommands(env, d1, es);
    var d2 := Run(env, d1, UserCommands(es));
    RunSongplayCommands(env, d2, es);
  }

  /** A file of one NextSong event stores the event's user, or takes just
      its level when the user is already stored. */
  lemma SingleEventUser(env: Env, db: Db, e: Event)
    requires e.page == NextSong
    ensures Get(ProcessLogFile(env, db, [e]).users, e.userId)
      == Some(if e.userId in db.users then db.users[e.userId].(level := e.level) else UserRowOf(e))
  {
    assert NextSongs([e]) == [e];
    LogFileUsers(env, db, [e]);
    assert FirstEvent([e], e.userId) == Some(e);
    assert LastLevel([e], e.userId) == Some(e.level);
  }

  /** Two files give one user the levels "free" then "paid": the stored
      level is "paid" and the names are those of the first file's event. */
  lemma LevelOfLaterFileWins(env: Env, db: Db, a: Event, b: Event)
    requires a.page == NextSong && b.page == NextSong
    requires a.userId == b.userId && a.userId !in db.users
    requires a.level == "free" && b.level == "paid"
    ensures var r := ProcessLogFile(env, ProcessLogFile(env, db, [a]), [b]);
      && a.userId in r.users
      && r.users[a.userId] == UserRowOf(a).(level := "paid")
  {
    var d1 := ProcessLogFile(env, db, [a]);
    SingleEventUser(env, db, a);
    SingleEventUser(env, d1, b);
  }

  // ---------------------------------------------------------------------
  // The songplays table

  /** How many of the events the lookup leaves unresolved: those whose
      title and artist name the join does not match, whatever `fetchone`
      would choose. */
  function UnresolvedCount(songs: map<string, SongRow>, artists: map<string, ArtistRow>, es: seq<Event>): nat
    decreases |es|
  {
    if es == [] then 0
    else (if Matches(songs, artists, es[0].song, es[0].artist) == {} then 1 else 0)
         + UnresolvedCount(songs, artists, es[1..])
  }

  /** No event's title and artist name match more than one join row, so
      `fetchone` has no choice to make. */
  ghost predicate AtMostOneMatch(songs: map<string, SongRow>, artists: map<string, ArtistRow>, es: seq<Event>) {
    forall e :: e in es ==> |Matches(songs, artists, e.song, e.artist)| <= 1
  }

  /** Two lookups that each return a row of the result agree when the
      result has at most one row. */
  lemma SameResolution(f1: Fetch, f2: Fetch, songs: map<string, SongRow>, artists: map<string, ArtistRow>, title: string, name: string)
    requires Chooses(f1) && Chooses(f2)
    requires |Matches(songs, artists, title, name)| <= 1
    ensures Resolve(f1, songs, artists, title, name) == Resolve(f2, songs, artists, title, name)
  {
    var ms := Matches(songs, artists, title, name);
    if ms != {} {
      var x, y := f1(ms), f2(ms);
      assert x in ms && y in ms;
      assert |ms - {x}| == |ms| - 1;
    }
  }

  /** The table holds `row` itself or a row with its unique key. */
  ghost predicate Recorded(sp: seq<SongplayRow>, row: SongplayRow) {
    row in sp || HasConflict(sp, row)
  }

  lemma RecordedGrows(sp: seq<SongplayRow>, sp': seq<SongplayRow>, row: SongplayRow)
    requires sp <= sp' && Recorded(sp, row)
    ensures Recorded(sp', row)
  {
    if HasConflict(sp, row) {
      var i :| 0 <= i < |sp| && SameKey(sp[i], row);
      assert sp'[i] == sp[i];
    } else {
      var i :| 0 <= i < |sp| && sp[i] == row;
      assert sp'[i] == row;
    }
  }

  lemma RecordedUnresolved(sp: seq<SongplayRow>, row: SongplayRow)
    requires row.songId.None? && Recorded(sp, row)
    ensures row in sp
  {
  }

  lemma RecordedResolved(sp: seq<SongplayRow>, row: SongplayRow)
    requires row.songId.Some? && Recorded(sp, row)
    ensures HasConflict(sp, row)
  {
    if row in sp {
      var i :| 0 <= i < |sp| && sp[i] == row;
      assert SameKey(sp[i], row);
    }
  }

  lemma {:induction false} RunSongplayCommands(env: Env, db: Db, es: seq<Event>)
    ensures var r, n := Run(env, db, SongplayCommands(es)), |db.songplays|;
      && r.time == db.time && r.users == db.users
      && UnresolvedCount(db.songs, db.artists, es) <= |r.songplays| - n <= |es|
      && (forall e :: e in es ==> Recorded(r.songplays, SongplayFor(env, db.songs, db.artists, e)))
      && (forall i :: n <= i < |r.songplays| ==>
            exists e :: e in es && r.songplays[i] == SongplayFor(env, db.songs, db.artists, e))
    decreases |es|
  {
    if es != [] {
      var cs := SongplayCommands(es);
      assert cs[1..] == SongplayCommands(es[1..]);
      var row := SongplayFor(env, db.songs, db.artists, es[0]);
      var db1 := InsertSongplay(db, row);
      RunSongplayCommands(env, db1, es[1..]);
      var r := Run(env, db1, SongplayCommands(es[1..]));
      assert r == Run(env, db, cs);
      assert Recorded(db1.songplays, row) by {
        if row.songId.None? {
          assert db1.songplays[|db.songplays|] == row;
        }
      }
      RecordedGrows(db1.songplays, r.songplays, row);
      forall e | e in es ensures Recorded(r.songplays, SongplayFor(env, db.songs, db.artists, e)) {
        if e != es[0] {
          assert e in es[1..];
        }
      }
      var n := |db.songplays|;
      forall i | n <= i < |r.songplays|
        ensures exists e :: e in es && r.songplays[i] == SongplayFor(env, db.songs, db.artists, e)
      {
        if i < |db1.songplays| {
          assert r.songplays[i] == db1.songplays[i] == row;
          assert es[0] in es;
        } else {
          var e :| e in es[1..] && r.songplays[i] == SongplayFor(env, db.songs, db.artists, e);
          assert e in es;
        }
      }
    }
  }

  /** After a log file, the songplays stored before are kept in place; every
      NextSong event has its row, or a row with its key, in the table, built
      from lookups in the reference tables as they were when the file began;
      every new row is the row of one of the events; and at least one row
      per unresolved event and at most one per event is added. */
  lemma LogFileSongplays(env: Env, db: Db, evs: seq<Event>)
    ensures var r, es, n := ProcessLogFile(env, db, evs), NextSongs(evs), |db.songplays|;
      && db.songplays <= r.songplays
      && UnresolvedCount(db.songs, db.artists, es) <= |r.songplays| - n <= |es|
      && (forall e :: e in es ==> Recorded(r.songplays, SongplayFor(env, db.songs, db.artists, e)))
      && (forall i :: n <= i < |r.songplays| ==>
            exists e :: e in es && r.songplays[i] == SongplayFor(env, db.songs, db.artists, e))
  {
    var es := NextSongs(evs);
    LogFilePhases(env, db, evs);
    RunTimeCommands(env, db, es);
    var d1 := Run(env, db, TimeCommands(env.calendar, es));
    RunUserCommands(env, d1, es);
    var d2 := Run(env, d1, UserCommands(es));
    RunSongplayCommands(env, d2, es);
  }

  /** When every event already has its row, or a row with its key, stored,
      replaying the events appends exactly one row per unresolved event,
      each a copy of a row already stored. */
  lemma {:induction false} ReplaySongplays(env: Env, db: Db, es: seq<Event>)
    requires forall e :: e in es ==> Recorded(db.songplays, SongplayFor(env, db.songs, db.artists, e))
    ensures var r, n := Run(env, db, SongplayCommands(es)), |db.songplays|;
      && |r.songplays| == n + UnresolvedCount(db.songs, db.artists, es)
      && (forall i :: n <= i < |r.songplays| ==> r.songplays[i] in db.songplays)
    decreases |es|
  {
    if es != [] {
      var cs := SongplayCommands(es);
      assert cs[1..] == SongplayCommands(es[1..]);
      var row := SongplayFor(env, db.songs, db.artists, es[0]);
      var db1 := InsertSongplay(db, row);
      assert Run(env, db, cs) == Run(env, db1, cs[1..]);
      assert es[0] in es;
      if row.songId.Some? {
        RecordedResolved(db.songplays, row);
        assert db1 == db;
      } else {
        RecordedUnresolved(db.songplays, row);
      }
      forall e | e in es[1..] ensures Recorded(db1.songplays, SongplayFor(env, db1.songs, db1.artists, e)) {
        assert e in es;
        RecordedGrows(db.songplays, db1.songplays, SongplayFor(env, db.songs, db.artists, e));
      }
      ReplaySongplays(env, db1, es[1..]);
      var r := Run(env, db1, SongplayCommands(es[1..]));
      forall i | |db.songplays| <= i < |r.songplays| ensures r.songplays[i] in db.songplays {
        if i < |db1.songplays| {
          assert r.songplays[i] == db1.songplays[i] == row;
        } else {
          assert r.songplays[i] in db1.songplays;
          var j :| 0 <= j < |db1.songplays| && db1.songplays[j] == r.songplays[i];
          if j >= |db.songplays| {
            assert db1.songplays[j] == row;
          } else {
            assert db1.songplays[j] == db.songplays[j];
          }
        }
      }
    }
  }

  /** Inserting instants that are all already keys leaves a time table as it was. */
  lemma TimeFixpoint(m0: map<Timestamp, TimeRow>, m1: map<Timestamp, TimeRow>, m2: map<Timestamp, TimeRow>, stamps: set<Timestamp>)
    requires m1.Keys == m0.Keys + stamps
    requires m2.Keys == m1.Keys + stamps
    requires forall t :: t in m1 ==> m2[t] == m1[t]
    ensures m2 == m1
  {
    assert m2.Keys == m1.Keys;
    assert forall t :: t in m2 <==> t in m1;
    assert forall t :: t in m2 ==> m2[t] == m1[t];
  }

  lemma RerunKeepsTime(env1: Env, env2: Env, db: Db, evs: seq<Event>)
    ensures var once := ProcessLogFile(env1, db, evs);
      ProcessLogFile(env2, once, evs).time == once.time
  {
    var once := ProcessLogFile(env1, db, evs);
    var twice := ProcessLogFile(env2, once, evs);
    LogFileTimeTable(env1, db, evs);
    LogFileTimeTable(env2, once, evs);
    TimeFixpoint(db.time, once.time, twice.time, Stamps(NextSongs(evs)));
  }

  lemma RerunKeepsUsers(env1: Env, env2: Env, db: Db, evs: seq<Event>)
    ensures var once := ProcessLogFile(env1, db, evs);
      ProcessLogFile(env2, once, evs).users == once.users
  {
    var es := NextSongs(evs);
    var once := ProcessLogFile(env1, db, evs);
    var twice := ProcessLogFile(env2, once, evs);
    LogFileUsers(env1, db, evs);
    LogFileUsers(env2, once, evs);
    forall uid ensures Get(twice.users, uid) == Get(once.users, uid) {
      FirstIffLast(es, uid);
      assert Get(once.users, uid) == ExpectedUser(db.users, es, uid);
      assert Get(twice.users, uid) == ExpectedUser(once.users, es, uid);
    }
    GetExtensional(twice.users, once.users);
  }

  /** The songplays-phase state of a second load, after its time and users
      phases, still holds the first load's songplays. */
  lemma SecondLoadBeforeSongplays(env: Env, once: Db, es: seq<Event>)
    ensures var d := Run(env, Run(env, once, TimeCommands(env.calendar, es)), UserCommands(es));
      && d.songplays == once.songplays && d.songs == once.songs && d.artists == once.artists
  {
    RunTimeCommands(env, once, es);
    RunUserCommands(env, Run(env, once, TimeCommands(env.calendar, es)), es);
  }

  lemma RerunSongplaysAtLeast(env1: Env, env2: Env, db: Db, evs: seq<Event>)
    ensures var once := ProcessLogFile(env1, db, evs);
      var twice := ProcessLogFile(env2, once, evs);
      && once.songplays <= twice.songplays
      && |twice.songplays| >= |once.songplays| + UnresolvedCount(db.songs, db.artists, NextSongs(evs))
  {
    var es := NextSongs(evs);
    var once := ProcessLogFile(env1, db, evs);
    LogFilePhases(env2, once, evs);
    SecondLoadBeforeSongplays(env2, once, es);
    var d := Run(env2, Run(env2, once, TimeCommands(env2.calendar, es)), UserCommands(es));
    RunSongplayCommands(env2, d, es);
  }

  lemma RerunSongplaysExactly(env1: Env, env2: Env, db: Db, evs: seq<Event>)
    requires Chooses(env1.fetchone) && Chooses(env2.fetchone)
    requires AtMostOneMatch(db.songs, db.artists, NextSongs(evs))
    ensures var once := ProcessLogFile(env1, db, evs);
      var twice := ProcessLogFile(env2, once, evs);
      && |twice.songplays| == |once.songplays| + UnresolvedCount(db.songs, db.artists, NextSongs(evs))
      && (forall i :: |once.songplays| <= i < |twice.songplays| ==> twice.songplays[i] in once.songplays)
  {
    var es := NextSongs(evs);
    var once := ProcessLogFile(env1, db, evs);
    LogFileSongplays(env1, db, evs);
    LogFilePhases(env2, once, evs);
    SecondLoadBeforeSongplays(env2, once, es);
    var d := Run(env2, Run(env2, once, TimeCommands(env2.calendar, es)), UserCommands(es));
    forall e | e in es ensures Recorded(d.songplays, SongplayFor(env2, d.songs, d.artists, e)) {
      SameResolution(env1.fetchone, env2.fetchone, db.songs, db.artists, e.song, e.artist);
    }
    ReplaySongplays(env2, d, es);
  }

  /** Loading a log file and then at once loading it again with the batched
      loader leaves the time and users tables as the first load left them.
      Songplays only grow, by at least one copy of each row whose lookup
      found nothing (NULL `song_id`s never collide). When no title and
      artist name match more than one join row, exactly those copies are
      added. The two loads may break ties in the lookup differently. */
  lemma RerunLogFile(env1: Env, env2: Env, db: Db, evs: seq<Event>)
    ensures var once := ProcessLogFile(env1, db, evs);
      var twice := ProcessLogDataBatch(env2, once, evs);
      var n, unresolved := |once.songplays|, UnresolvedCount(db.songs, db.artists, NextSongs(evs));
      && twice.time == once.time
      && twice.users == once.users
      && once.songplays <= twice.songplays
      && |twice.songplays| >= n + unresolved
      && (Chooses(env1.fetchone) && Chooses(env2.fetchone) && AtMostOneMatch(db.songs, db.artists, NextSongs(evs)) ==>
            && |twice.songplays| == n + unresolved
            && forall i :: n <= i < |twice.songplays| ==> twice.songplays[i] in once.songplays)
  {
    var once := ProcessLogFile(env1, db, evs);
    BatchedEqualsRowByRow(env2, once, evs);
    RerunKeepsTime(env1, env2, db, evs);
    RerunKeepsUsers(env1, env2, db, evs);
    RerunSongplaysAtLeast(env1, env2, db, evs);
    if Chooses(env1.fetchone) && Chooses(env2.fetchone) && AtMostOneMatch(db.songs, db.artists, NextSongs(evs)) {
      RerunSongplaysExactly(env1, env2, db, evs);
    }
  }

  // ---------------------------------------------------------------------
  // process_data and main

  /** `process_data` over `a + b` is `process_data` over `a`, then over `b`
      from where `a` left the tables, unless `a` already raised. */
  lemma {:induction false} ProcessDataAppend<F>(db: Db, a: seq<F>, b: seq<F>, process: (Db, F) -> Result<Db, LoadError>)
    ensures var ra := ProcessData(db, a, process);
      ProcessData(db, a + b, process) == if ra.Completed? then ProcessData(ra.db, b, process) else ra
    decreases |a|
  {
    if a == [] {
      assert a + b == b;
    } else {
      assert (a + b)[0] == a[0];
      assert (a + b)[1..] == a[1..] + b;
      if process(db, a[0]).Success? {
        ProcessDataAppend(process(db, a[0]).value, a[1..], b, process);
      }
    }
  }

  /** Over log files `process_data` completes exactly when no file is
      empty. Whether it completes or stops, it leaves the reference tables
      unchanged and keeps the schema's constraints. */
  lemma {:induction false} LogPhaseOutcome(env: Env, db: Db, files: seq<seq<Event>>, batched: bool)
    ensures var r := ProcessData(db, files, LogStep(env, batched));
      var last := if r.Completed? then r.db else r.committed;
      && (r.Completed? <==> forall i :: 0 <= i < |files| ==> files[i] != [])
      && last.songs == db.songs && last.artists == db.artists
      && (WellFormed(db) ==> WellFormed(last))
    decreases |files|
  {
    if files != [] {
      AllNonEmptyCons(files);
      if files[0] != [] {
        BatchedEqualsRowByRow(env, db, files[0]);
        LogPhaseOutcome(env, ProcessLogFile(env, db, files[0]), files[1..], batched);
      }
    }
  }

  /** The batched and per-row runs over the same log files agree. */
  lemma {:induction false} LogRunsAgree(env: Env, db: Db, files: seq<seq<Event>>)
    ensures ProcessData(db, files, LogStep(env, true)) == ProcessData(db, files, LogStep(env, false))
    decreases |files|
  {
    if files != [] {
      BatchedEqualsRowByRow(env, db, files[0]);
      LogRunsAgree(env, ProcessLogFile(env, db, files[0]), files[1..]);
    }
  }

  /** Over song files `process_data` completes exactly when no file is
      empty, and then it has touched only the songs and artists tables. */
  lemma {:induction false} SongPhaseOutcome(db: Db, files: seq<seq<SongRecord>>)
    ensures var r := ProcessData(db, files, ProcessSongFile);
      && (r.Completed? <==> forall i :: 0 <= i < |files| ==> files[i] != [])
      && (r.Completed? ==>
            && r.db.time == db.time && r.db.users == db.users && r.db.songplays == db.songplays
            && (WellFormed(db) ==> WellFormed(r.db)))
    decreases |files|
  {
    if files != [] && files[0] != [] {
      var d := ProcessSongFile(db, files[0]).value;
      SongPhaseOutcome(d, files[1..]);
      AllNonEmptyCons(files);
    }
  }

  lemma AllNonEmptyCons<T>(files: seq<seq<T>>)
    requires files != []
    ensures (forall i :: 0 <= i < |files| ==> files[i] != [])
        <==> files[0] != [] && (forall i :: 0 <= i < |files[1..]| ==> files[1..][i] != [])
  {
    if files[0] != [] && (forall i :: 0 <= i < |files[1..]| ==> files[1..][i] != []) {
      forall i | 1 <= i < |files| ensures files[i] != [] {
        assert files[1..][i - 1] == files[i];
      }
    }
  }

  /** `main` completes exactly when every song file has a record and every
      log file has a line; the log phase sees the reference tables the song
      phase built, and the batched and per-row pipelines end in the same
      state. */
  lemma PipelineOutcome(env: Env, db: Db, songFiles: seq<seq<SongRecord>>, logFiles: seq<seq<Event>>, batched: bool)
    ensures var r, s := RunPipeline(env, db, songFiles, logFiles, batched), ProcessData(db, songFiles, ProcessSongFile);
      && (r.Completed? <==>
            && (forall i :: 0 <= i < |songFiles| ==> songFiles[i] != [])
            && (forall i :: 0 <= i < |logFiles| ==> logFiles[i] != []))
      && (r.Completed? ==> r.db.songs == s.db.songs && r.db.artists == s.db.artists)
      && (r.Completed? && WellFormed(db) ==> WellFormed(r.db))
      && RunPipeline(env, db, songFiles, logFiles, true) == RunPipeline(env, db, songFiles, logFiles, false)
  {
    SongPhaseOutcome(db, songFiles);
    var s := ProcessData(db, songFiles, ProcessSongFile);
    if s.Completed? {
      LogPhaseOutcome(env, s.db, logFiles, batched);
      LogRunsAgree(env, s.db, logFiles);
    }
  }
}
