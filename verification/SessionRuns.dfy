/** What holds of the session log after every run: creates, appends, deletes, compactions,
    crashes inside a compaction, and restarts. */
module SessionRuns {
  import opened Common
  import opened JsonLines
  import opened KeyedFiles
  import opened SessionLog
  import opened SessionStore

  /** The track says of a live session what the operations say of it. */
  ghost predicate RecordedAt(cfg: Config, ops: seq<Op>, k: Key, t: Track) {
    && t.meta == MetaAt(ops, k)
    && t.history == History(ops, k)
    && t.fileFrom == FileFrom(cfg, ops, k)
    && Fits(MetaLine(cfg.codec, t.meta))
  }

  ghost predicate Recorded(cfg: Config, ops: seq<Op>, tracks: map<Key, Track>) {
    && (forall k :: k in tracks <==> Live(ops, k))
    && (forall k :: k in tracks ==> RecordedAt(cfg, ops, k, tracks[k]))
  }

  ghost function TrackCreated(k: Key, state: State, now: int): Track {
    Track(Meta(k, now, state), [], 0, 0)
  }

  ghost function TrackWritten(t: Track, e: Event): Track {
    t.(history := t.history + [e])
  }

  lemma CreatedOk(cfg: Config, k: Key, state: State, now: int)
    ensures SessionOk(cfg, k, MetaLine(cfg.codec, Meta(k, now, state)) + [NL], Session(state, []),
                      TrackCreated(k, state, now))
  {
    var m := Meta(k, now, state);
    assert FileLines(cfg.codec, m, []) == [MetaLine(cfg.codec, m)];
    assert Unlines([MetaLine(cfg.codec, m)]) == MetaLine(cfg.codec, m) + [NL] + Unlines([]);
  }

  /** A path that no live session has is free. */
  lemma FreePath(cfg: Config, s: Store, tracks: map<Key, Track>, k: Key)
    requires Inv(cfg, s, tracks) && forall j :: j in s.memory ==> PathOf(j) != PathOf(k)
    ensures PathOf(k) !in s.files
  {
    SessionFilesOwned(PathOf(k));
    assert SessionFiles().owned(SessionFiles().path(k));
    if PathOf(k) in s.files {
      var j := Owner(cfg, s, tracks, PathOf(k));
    }
  }

  lemma CreateIs(cfg: Config, s: Store, k: Key, state: State, now: int)
    requires k !in s.memory && PathOf(k) !in s.files
    ensures Create(cfg, s, k, state, now) ==
            Store(s.files[PathOf(k) := MetaLine(cfg.codec, Meta(k, now, state)) + [NL]],
                  s.memory[k := Session(state, [])])
  {
    var line := MetaLine(cfg.codec, Meta(k, now, state));
    assert "" + line + [NL] == line + [NL];
  }

  lemma CreateKeeps(cfg: Config, s: Store, tracks: map<Key, Track>, k: Key, state: State, now: int)
    requires Inv(cfg, s, tracks) && k !in s.memory
    requires forall j :: j in s.memory ==> PathOf(j) != PathOf(k)
    ensures Inv(cfg, Create(cfg, s, k, state, now), tracks[k := TrackCreated(k, state, now)])
  {
    FreePath(cfg, s, tracks, k);
    CreateIs(cfg, s, k, state, now);
    CreatedOk(cfg, k, state, now);
    Put(SessionFiles(), OkFor(cfg), s.files, s.memory, tracks, k,
        MetaLine(cfg.codec, Meta(k, now, state)) + [NL], Session(state, []), TrackCreated(k, state, now));
  }

  lemma WriteKeeps(cfg: Config, s: Store, tracks: map<Key, Track>, k: Key, e: Event)
    requires Inv(cfg, s, tracks) && k in tracks && !e.partial
    ensures PathOf(k) in s.files
    ensures Inv(cfg, Write(cfg, s, k, e), tracks[k := TrackWritten(tracks[k], e)])
  {
    assert SessionFiles().path(k) in s.files;
    var d, m := s.files[PathOf(k)], s.memory[k];
    assert OkFor(cfg)(k, d, m, tracks[k]);
    WriteMemory(m, tracks[k], e);
    WriteFile(cfg, d, tracks[k], e);
    Put(SessionFiles(), OkFor(cfg), s.files, s.memory, tracks, k, d + EventLine(cfg.codec, e) + [NL],
        m.(events := m.events + [e]), TrackWritten(tracks[k], e));
  }

  /** The files without the temporary file, and the text, that maybeCompact leaves. */
  ghost function Bare(cfg: Config, files: Files, p: Path): Files {
    if DueAt(cfg, files, p).Some? then files - {TmpOf(p)} else files
  }

  ghost function TextAfter(cfg: Config, d: string): string {
    if Due(cfg, d).Some? then Due(cfg, d).value else d
  }

  lemma MaybeCompactIs(cfg: Config, files: Files, p: Path)
    requires p in files
    ensures MaybeCompact(cfg, files, p) == Bare(cfg, files, p)[p := TextAfter(cfg, files[p])]
  {
  }

  lemma CompactOk(cfg: Config, k: Key, d: string, m: Session, t: Track)
    requires Lawful(cfg.codec) && OkFor(cfg)(k, d, m, t)
    ensures OkFor(cfg)(k, TextAfter(cfg, d), m, TrackCompacted(cfg, d, t))
  {
    CompactFile(cfg, d, t);
  }

  lemma BareKeeps(cfg: Config, s: Store, tracks: map<Key, Track>, p: Path)
    requires Inv(cfg, s, tracks)
    ensures Inv(cfg, s.(files := Bare(cfg, s.files, p)), tracks)
  {
    SessionFilesOwned(p);
    UnownedAt(SessionFiles(), OkFor(cfg), s.files, Bare(cfg, s.files, p), TmpOf(p), s.memory, tracks);
  }

  lemma CompactKeeps(cfg: Config, s: Store, tracks: map<Key, Track>, k: Key)
    requires Inv(cfg, s, tracks) && k in tracks && PathOf(k) in s.files
    ensures Inv(cfg, s.(files := MaybeCompact(cfg, s.files, PathOf(k))),
                tracks[k := TrackCompacted(cfg, s.files[PathOf(k)], tracks[k])])
  {
    var d, m, t := s.files[PathOf(k)], s.memory[k], tracks[k];
    assert OkFor(cfg)(k, d, m, t);
    CompactOk(cfg, k, d, m, t);
    BareKeeps(cfg, s, tracks, PathOf(k));
    CompactPut(cfg, s.(files := Bare(cfg, s.files, PathOf(k))), tracks, k, TextAfter(cfg, d),
               TrackCompacted(cfg, d, t));
    MaybeCompactIs(cfg, s.files, PathOf(k));
  }

  /** The session's file gets another text; its memory stays. */
  lemma CompactPut(cfg: Config, s: Store, tracks: map<Key, Track>, k: Key, text: string, t: Track)
    requires Inv(cfg, s, tracks) && k in tracks && OkFor(cfg)(k, text, s.memory[k], t)
    ensures Inv(cfg, s.(files := s.files[PathOf(k) := text]), tracks[k := t])
  {
    Put(SessionFiles(), OkFor(cfg), s.files, s.memory, tracks, k, text, s.memory[k], t);
    assert s.memory[k := s.memory[k]] == s.memory;
  }

  /** The text of the session's file once an event is appended. */
  ghost function Written(cfg: Config, s: Store, tracks: map<Key, Track>, k: Key, e: Event): string
    requires Inv(cfg, s, tracks) && k in tracks && !e.partial
  {
    WriteKeeps(cfg, s, tracks, k, e);
    Write(cfg, s, k, e).files[PathOf(k)]
  }

  lemma AppendKeeps(cfg: Config, s: Store, tracks: map<Key, Track>, k: Key, e: Event)
    requires Inv(cfg, s, tracks) && k in tracks && !e.partial
    ensures PathOf(k) in s.files
    ensures Inv(cfg, Append(cfg, s, k, e),
                tracks[k := TrackCompacted(cfg, Written(cfg, s, tracks, k, e), TrackWritten(tracks[k], e))])
  {
    WriteKeeps(cfg, s, tracks, k, e);
    var t := TrackWritten(tracks[k], e);
    var mid := tracks[k := t];
    CompactKeeps(cfg, Write(cfg, s, k, e), mid, k);
    var t' := TrackCompacted(cfg, Written(cfg, s, tracks, k, e), t);
    assert mid[k := t'] == tracks[k := t'];
  }

  lemma DeleteKeeps(cfg: Config, s: Store, tracks: map<Key, Track>, k: Key)
    requires Inv(cfg, s, tracks)
    requires forall j :: j in s.memory && j != k ==> PathOf(j) != PathOf(k)
    ensures Inv(cfg, Delete(s, k), tracks - {k})
  {
    Remove(SessionFiles(), OkFor(cfg), s.files, s.memory, tracks, k);
  }

  /** A crash anywhere in compact before the rename leaves every session reading as it did
      before the compaction began; after the rename it reads as CompactKeeps says. */
  lemma CrashKeeps(cfg: Config, s: Store, tracks: map<Key, Track>, p: Path, written: int)
    requires Inv(cfg, s, tracks)
    ensures Inv(cfg, s.(files := CrashFiles(cfg, s.files, p, written)), tracks)
  {
    SessionFilesOwned(p);
    UnownedAt(SessionFiles(), OkFor(cfg), s.files, CrashFiles(cfg, s.files, p, written), TmpOf(p), s.memory, tracks);
  }

  /** A restart succeeds exactly when no live session has, behind metadata the scanner can
      hold, an event line it cannot; it then brings back exactly the sessions whose metadata
      line it can hold, each with its metadata and the events of its file. */
  lemma RestartOutcome(cfg: Config, s: Store, tracks: map<Key, Track>, listing: seq<Path>)
    requires Inv(cfg, s, tracks) && Bounded(tracks) && ListingOf(listing, s.files)
    ensures Restart(cfg, s, listing).Ok? <==>
            forall k :: k in tracks && Fits(MetaLine(cfg.codec, tracks[k].meta)) ==>
                          AllFit(EventLines(cfg.codec, Kept(tracks[k])))
    ensures Restart(cfg, s, listing).Ok? ==>
              Restart(cfg, s, listing).value.memory ==
              map k | k in tracks && Fits(MetaLine(cfg.codec, tracks[k].meta)) :: Reloaded(tracks[k])
  {
    LoadAllOutcome(cfg, s, tracks, listing);
    forall k | k in tracks ensures PathOf(k) in listing {
      assert SessionFiles().path(k) in s.files;
    }
    assert AllLoad(cfg.codec, tracks, listing) == forall k :: k in tracks ==> Loads(cfg.codec, tracks[k]);
    assert Restored(cfg.codec, tracks, listing) ==
           map k | k in tracks && Fits(MetaLine(cfg.codec, tracks[k].meta)) :: Reloaded(tracks[k]);
  }

  ghost function Restarted(tracks: map<Key, Track>): map<Key, Track> {
    map k | k in tracks :: tracks[k].(memoryFrom := tracks[k].fileFrom)
  }

  ghost predicate AllTracksFit(c: Codec, tracks: map<Key, Track>) {
    forall k :: k in tracks ==> TrackFits(c, tracks[k])
  }

  lemma ReloadedOk(cfg: Config, k: Key, d: string, m: Session, t: Track)
    requires SessionOk(cfg, k, d, m, t)
    ensures SessionOk(cfg, k, d, Reloaded(t), t.(memoryFrom := t.fileFrom))
  {
    assert PersistedAll(PersistedAll(Kept(t))) == PersistedAll(Kept(t));
  }

  /** When every line fits, a restart loses nothing that the files held. */
  lemma RestartKeeps(cfg: Config, s: Store, tracks: map<Key, Track>, listing: seq<Path>)
    requires Inv(cfg, s, tracks) && ListingOf(listing, s.files) && AllTracksFit(cfg.codec, tracks)
    ensures Restart(cfg, s, listing).Ok?
    ensures Inv(cfg, Restart(cfg, s, listing).value, Restarted(tracks))
  {
    InvBounded(cfg, s, tracks);
    RestartOutcome(cfg, s, tracks, listing);
    assert Restart(cfg, s, listing).value.memory == ReloadedAll(tracks);
    ReloadKeeps(cfg, s, tracks);
  }

  /** Every session as a restart gives it back. */
  ghost function ReloadedAll(tracks: map<Key, Track>): Memory
    requires Bounded(tracks)
  {
    map k | k in tracks :: Reloaded(tracks[k])
  }

  lemma ReloadKeeps(cfg: Config, s: Store, tracks: map<Key, Track>)
    requires Inv(cfg, s, tracks) && Bounded(tracks)
    ensures Inv(cfg, s.(memory := ReloadedAll(tracks)), Restarted(tracks))
  {
    forall k | k in tracks && OkFor(cfg)(k, s.files[SessionFiles().path(k)], s.memory[k], tracks[k])
      ensures OkFor(cfg)(k, s.files[SessionFiles().path(k)], ReloadedAll(tracks)[k], Restarted(tracks)[k])
    {
      ReloadedOk(cfg, k, s.files[SessionFiles().path(k)], s.memory[k], tracks[k]);
    }
    Replace(SessionFiles(), OkFor(cfg), s.files, s.memory, tracks, ReloadedAll(tracks), Restarted(tracks));
  }

  // ---------------------------------------------------------------- lines that are too long

  /** A session with one event. */
  ghost function TrackOfOne(k: Key, state: State, now: int, e: Event): Track {
    Track(Meta(k, now, state), [e], 0, 0)
  }

  lemma FirstAppend(cfg: Config, s: Store, tracks: map<Key, Track>, k: Key, state: State, now: int, e: Event)
    requires Inv(cfg, s, tracks) && k !in s.memory && !e.partial
    requires forall j :: j in s.memory ==> PathOf(j) != PathOf(k)
    ensures Inv(cfg, Append(cfg, Create(cfg, s, k, state, now), k, e), tracks[k := TrackOfOne(k, state, now, e)])
  {
    CreateKeeps(cfg, s, tracks, k, state, now);
    AppendToFresh(cfg, Create(cfg, s, k, state, now), tracks[k := TrackCreated(k, state, now)], k, state, now, e);
    PutTwice(tracks, k, TrackCreated(k, state, now), TrackOfOne(k, state, now, e));
  }

  lemma PutTwice<K, V>(m: map<K, V>, k: K, v: V, w: V)
    ensures m[k := v][k := w] == m[k := w]
  {
  }

  lemma AppendToFresh(cfg: Config, s: Store, tracks: map<Key, Track>, k: Key, state: State, now: int, e: Event)
    requires Inv(cfg, s, tracks) && k in tracks && !e.partial && tracks[k] == TrackCreated(k, state, now)
    ensures Inv(cfg, Append(cfg, s, k, e), tracks[k := TrackOfOne(k, state, now, e)])
  {
    AppendKeeps(cfg, s, tracks, k, e);
    OneIsKept(cfg, k, state, now, e, Written(cfg, s, tracks, k, e));
  }

  /** A first event is not compacted away. */
  lemma OneIsKept(cfg: Config, k: Key, state: State, now: int, e: Event, d: string)
    ensures TrackCompacted(cfg, d, TrackWritten(TrackCreated(k, state, now), e)) == TrackOfOne(k, state, now, e)
  {
    assert [] + [e] == [e];
  }

  /** The service accepts an event whose line the scanner cannot hold, and a restart fails as
      long as the line is in the file: whatever else the files hold, in whatever order they are
      listed. */
  lemma LongEventStopsRestarts(cfg: Config, s: Store, tracks: map<Key, Track>, k: Key, state: State, now: int,
                               e: Event, listing: seq<Path>)
    requires Inv(cfg, s, tracks) && k !in s.memory && !e.partial
    requires forall j :: j in s.memory ==> PathOf(j) != PathOf(k)
    requires Fits(MetaLine(cfg.codec, Meta(k, now, state))) && !Fits(EventLine(cfg.codec, e))
    requires ListingOf(listing, Append(cfg, Create(cfg, s, k, state, now), k, e).files)
    ensures Restart(cfg, Append(cfg, Create(cfg, s, k, state, now), k, e), listing).Err?
  {
    var t := TrackOfOne(k, state, now, e);
    var after, all := Append(cfg, Create(cfg, s, k, state, now), k, e), tracks[k := t];
    FirstAppend(cfg, s, tracks, k, state, now, e);
    InvBounded(cfg, after, all);
    RestartOutcome(cfg, after, all, listing);
    assert Kept(t) == [e] && EventLines(cfg.codec, [e])[0] == EventLine(cfg.codec, e);
    assert !AllFit(EventLines(cfg.codec, Kept(all[k])));
  }

  /** Deleting the session takes the line away, and restarts succeed again. */
  lemma DeleteRepairs(cfg: Config, s: Store, tracks: map<Key, Track>, k: Key, listing: seq<Path>)
    requires Inv(cfg, s, tracks) && AllTracksFit(cfg.codec, tracks - {k})
    requires forall j :: j in s.memory && j != k ==> PathOf(j) != PathOf(k)
    requires ListingOf(listing, Delete(s, k).files)
    ensures Restart(cfg, Delete(s, k), listing).Ok?
  {
    DeleteKeeps(cfg, s, tracks, k);
    RestartKeeps(cfg, Delete(s, k), tracks - {k}, listing);
  }

  /** The service accepts a session whose metadata line the scanner cannot hold, and a restart
      silently does without it. */
  lemma LongMetadataLosesSession(cfg: Config, s: Store, tracks: map<Key, Track>, k: Key, state: State, now: int,
                                 listing: seq<Path>)
    requires Inv(cfg, s, tracks) && AllTracksFit(cfg.codec, tracks) && k !in s.memory
    requires forall j :: j in s.memory ==> PathOf(j) != PathOf(k)
    requires !Fits(MetaLine(cfg.codec, Meta(k, now, state)))
    requires ListingOf(listing, Create(cfg, s, k, state, now).files)
    ensures k in Create(cfg, s, k, state, now).memory
    ensures Restart(cfg, Create(cfg, s, k, state, now), listing).Ok?
    ensures k !in Restart(cfg, Create(cfg, s, k, state, now), listing).value.memory
  {
    var after, all := Create(cfg, s, k, state, now), tracks[k := TrackCreated(k, state, now)];
    CreateKeeps(cfg, s, tracks, k, state, now);
    InvBounded(cfg, after, all);
    InvBounded(cfg, s, tracks);
    RestartOutcome(cfg, after, all, listing);
  }

  /** An empty directory is a state of the invariant. */
  lemma EmptyStoreOk(cfg: Config)
    requires Lawful(cfg.codec)
    ensures Inv(cfg, Store(map[], map[]), map[])
  {
    SessionFilesOwned(Path("", ""));
  }

  /** An operation that concerns another session, or none, changes nothing recorded of this
      one. */
  lemma OtherRecorded(cfg: Config, ops: seq<Op>, op: Op, k: Key, t: Track)
    requires RecordedAt(cfg, ops, k, t)
    requires op.OpRestart? || op.k != k || (op.OpCreate? && Live(ops, k)) || (op.OpAppend? && op.e.partial)
    ensures RecordedAt(cfg, ops + [op], k, t)
    ensures !op.OpRestart? && op.k != k ==> Live(ops + [op], k) == Live(ops, k)
  {
    assert (ops + [op])[..|ops|] == ops;
  }

  lemma CreateRecorded(cfg: Config, ops: seq<Op>, k: Key, state: State, now: int)
    requires !Live(ops, k) && Fits(MetaLine(cfg.codec, Meta(k, now, state)))
    ensures var after := ops + [OpCreate(k, state, now)];
            RecordedAt(cfg, after, k, TrackCreated(k, state, now)) && Live(after, k)
  {
    var op := OpCreate(k, state, now);
    assert (ops + [op])[..|ops|] == ops;
  }

  lemma AppendRecorded(cfg: Config, ops: seq<Op>, s: Store, k: Key, e: Event, t: Track)
    requires RecordedAt(cfg, ops, k, t) && Live(ops, k) && Run(cfg, ops) == Some(s) && k in s.memory
    requires !e.partial && PathOf(k) in s.files
    ensures var d := Write(cfg, s, k, e).files[PathOf(k)];
            RecordedAt(cfg, ops + [OpAppend(k, e)], k, TrackCompacted(cfg, d, TrackWritten(t, e)))
  {
    var op := OpAppend(k, e);
    assert (ops + [op])[..|ops|] == ops;
  }

  lemma CrashRecorded(cfg: Config, ops: seq<Op>, op: Op, t: Track)
    requires op.OpCrash? && RecordedAt(cfg, ops, op.k, t) && Live(ops, op.k)
    requires !op.e.partial
    ensures RecordedAt(cfg, ops + [op], op.k, TrackWritten(t, op.e)) && Live(ops + [op], op.k)
  {
    assert (ops + [op])[..|ops|] == ops;
  }

  /** One key's track changes as its record does; the others stay. */
  lemma PutRecorded(cfg: Config, ops: seq<Op>, op: Op, tracks: map<Key, Track>, t: Track)
    requires Recorded(cfg, ops, tracks) && !op.OpRestart?
    requires RecordedAt(cfg, ops + [op], op.k, t) && Live(ops + [op], op.k)
    ensures Recorded(cfg, ops + [op], tracks[op.k := t])
  {
    var after := tracks[op.k := t];
    forall j ensures (j in after <==> Live(ops + [op], j))
    ensures j in after ==> RecordedAt(cfg, ops + [op], j, after[j]) {
      if j != op.k {
        if j in tracks { OtherRecorded(cfg, ops, op, j, tracks[j]); }
        assert (ops + [op])[..|ops|] == ops;
      }
    }
  }

  lemma SameRecorded(cfg: Config, ops: seq<Op>, op: Op, tracks: map<Key, Track>)
    requires Recorded(cfg, ops, tracks)
    requires || op.OpRestart? || (op.OpCreate? && Live(ops, op.k))
             || (op.OpAppend? && (op.e.partial || !Live(ops, op.k)))
    ensures Recorded(cfg, ops + [op], tracks)
  {
    assert (ops + [op])[..|ops|] == ops;
    forall j | j in tracks ensures RecordedAt(cfg, ops + [op], j, tracks[j]) {
      OtherRecorded(cfg, ops, op, j, tracks[j]);
    }
  }

  lemma DeleteRecorded(cfg: Config, ops: seq<Op>, k: Key, tracks: map<Key, Track>)
    requires Recorded(cfg, ops, tracks)
    ensures Recorded(cfg, ops + [OpDelete(k)], tracks - {k})
  {
    var op := OpDelete(k);
    assert (ops + [op])[..|ops|] == ops;
    forall j | j in tracks && j != k ensures RecordedAt(cfg, ops + [op], j, tracks[j]) {
      OtherRecorded(cfg, ops, op, j, tracks[j]);
    }
  }

  lemma RestartRecorded(cfg: Config, ops: seq<Op>, tracks: map<Key, Track>)
    requires Recorded(cfg, ops, tracks)
    ensures Recorded(cfg, ops, Restarted(tracks))
  {
    forall j | j in tracks ensures RecordedAt(cfg, ops, j, Restarted(tracks)[j]) {
      assert RecordedAt(cfg, ops, j, tracks[j]);
    }
  }

  /** What is recorded tells whether the files can be read. */
  lemma RecordedFits(cfg: Config, ops: seq<Op>, tracks: map<Key, Track>)
    requires Recorded(cfg, ops, tracks)
    ensures AllTracksFit(cfg.codec, tracks) <==> Readable(cfg, ops)
  {
    forall k | Live(ops, k)
      ensures TrackFits(cfg.codec, tracks[k]) <==> AllFit(EventLines(cfg.codec, InFile(cfg, ops, k)))
    {
      assert RecordedAt(cfg, ops, k, tracks[k]);
    }
    if Readable(cfg, ops) {
      forall k | k in tracks ensures TrackFits(cfg.codec, tracks[k]) { assert Live(ops, k); }
    }
  }

  ghost predicate Restarts(op: Op) { op.OpRestart? || op.OpCrash? }

  /** One operation of a run: a restart succeeds if and only if the files can be read, anything
      else succeeds, and its effect on the tracks is the one that its effect on the history, the
      metadata and the liveness of the sessions says. */
  lemma StepKeeps(cfg: Config, ops: seq<Op>, op: Op, s: Store, tracks: map<Key, Track>)
      returns (after: map<Key, Track>)
    requires Run(cfg, ops) == Some(s) && Allowed(cfg, s, op)
    requires Inv(cfg, s, tracks) && Recorded(cfg, ops, tracks)
    ensures Exec(cfg, s, op).Ok? <==> (Restarts(op) ==> Readable(cfg, ops + [op]))
    ensures Exec(cfg, s, op).Ok? ==> Inv(cfg, Exec(cfg, s, op).value, after) && Recorded(cfg, ops + [op], after)
  {
    match op
    case OpCreate(k, state, now) => after := StepCreate(cfg, ops, s, tracks, k, state, now);
    case OpAppend(k, e) => after := StepAppend(cfg, ops, s, tracks, k, e);
    case OpDelete(k) => after := StepDelete(cfg, ops, s, tracks, k);
    case OpRestart(listing) => after := StepRestart(cfg, ops, s, tracks, listing);
    case OpCrash(_, _, _, _) => after := StepCrash(cfg, ops, s, tracks, op);
  }

  lemma StepDelete(cfg: Config, ops: seq<Op>, s: Store, tracks: map<Key, Track>, k: Key)
      returns (after: map<Key, Track>)
    requires Allowed(cfg, s, OpDelete(k))
    requires Inv(cfg, s, tracks) && Recorded(cfg, ops, tracks)
    ensures Inv(cfg, Delete(s, k), after) && Recorded(cfg, ops + [OpDelete(k)], after)
  {
    after := tracks - {k};
    DeleteKeeps(cfg, s, tracks, k);
    DeleteRecorded(cfg, ops, k, tracks);
  }

  lemma StepCreate(cfg: Config, ops: seq<Op>, s: Store, tracks: map<Key, Track>, k: Key, state: State, now: int)
      returns (after: map<Key, Track>)
    requires Allowed(cfg, s, OpCreate(k, state, now))
    requires Inv(cfg, s, tracks) && Recorded(cfg, ops, tracks)
    ensures Inv(cfg, Create(cfg, s, k, state, now), after)
    ensures Recorded(cfg, ops + [OpCreate(k, state, now)], after)
  {
    if k in s.memory {
      after := tracks;
      SameRecorded(cfg, ops, OpCreate(k, state, now), tracks);
    } else {
      after := tracks[k := TrackCreated(k, state, now)];
      CreateKeeps(cfg, s, tracks, k, state, now);
      CreateRecorded(cfg, ops, k, state, now);
      PutRecorded(cfg, ops, OpCreate(k, state, now), tracks, TrackCreated(k, state, now));
    }
  }

  lemma StepAppend(cfg: Config, ops: seq<Op>, s: Store, tracks: map<Key, Track>, k: Key, e: Event)
      returns (after: map<Key, Track>)
    requires Run(cfg, ops) == Some(s)
    requires Inv(cfg, s, tracks) && Recorded(cfg, ops, tracks)
    ensures Inv(cfg, Append(cfg, s, k, e), after)
    ensures Recorded(cfg, ops + [OpAppend(k, e)], after)
  {
    if k in s.memory && !e.partial {
      var t := TrackCompacted(cfg, Written(cfg, s, tracks, k, e), TrackWritten(tracks[k], e));
      after := tracks[k := t];
      AppendKeeps(cfg, s, tracks, k, e);
      AppendRecorded(cfg, ops, s, k, e, tracks[k]);
      OpenLive(ops, OpAppend(k, e));
      PutRecorded(cfg, ops, OpAppend(k, e), tracks, t);
    } else {
      after := tracks;
      SameRecorded(cfg, ops, OpAppend(k, e), tracks);
    }
  }

  lemma OpenLive(ops: seq<Op>, op: Op)
    requires op.OpAppend?
    ensures Live(ops + [op], op.k) == Live(ops, op.k)
  {
    assert (ops + [op])[..|ops|] == ops;
  }

  lemma StepRestart(cfg: Config, ops: seq<Op>, s: Store, tracks: map<Key, Track>, listing: seq<Path>)
      returns (after: map<Key, Track>)
    requires Inv(cfg, s, tracks) && Recorded(cfg, ops, tracks) && ListingOf(listing, s.files)
    ensures Restart(cfg, s, listing).Ok? <==> Readable(cfg, ops + [OpRestart(listing)])
    ensures Restart(cfg, s, listing).Ok? ==>
              Inv(cfg, Restart(cfg, s, listing).value, after) && Recorded(cfg, ops + [OpRestart(listing)], after)
  {
    SameRecorded(cfg, ops, OpRestart(listing), tracks);
    after := AfterRestart(cfg, ops + [OpRestart(listing)], s, tracks, listing);
  }

  /** A restart after operations that the tracks record. */
  lemma AfterRestart(cfg: Config, ops: seq<Op>, s: Store, tracks: map<Key, Track>, listing: seq<Path>)
      returns (after: map<Key, Track>)
    requires Inv(cfg, s, tracks) && Recorded(cfg, ops, tracks) && ListingOf(listing, s.files)
    ensures Restart(cfg, s, listing).Ok? <==> Readable(cfg, ops)
    ensures Restart(cfg, s, listing).Ok? ==>
              Inv(cfg, Restart(cfg, s, listing).value, after) && Recorded(cfg, ops, after)
  {
    after := Restarted(tracks);
    RecordedFits(cfg, ops, tracks);
    if Readable(cfg, ops) {
      RestartKeeps(cfg, s, tracks, listing);
      RestartRecorded(cfg, ops, tracks);
    } else {
      InvBounded(cfg, s, tracks);
      RestartOutcome(cfg, s, tracks, listing);
      var k :| k in tracks && !TrackFits(cfg.codec, tracks[k]);
      assert RecordedAt(cfg, ops, k, tracks[k]);
    }
  }

  lemma StepCrash(cfg: Config, ops: seq<Op>, s: Store, tracks: map<Key, Track>, op: Op)
      returns (after: map<Key, Track>)
    requires op.OpCrash? && Allowed(cfg, s, op)
    requires Inv(cfg, s, tracks) && Recorded(cfg, ops, tracks)
    ensures Exec(cfg, s, op).Ok? <==> Readable(cfg, ops + [op])
    ensures Exec(cfg, s, op).Ok? ==> Inv(cfg, Exec(cfg, s, op).value, after) && Recorded(cfg, ops + [op], after)
  {
    var k := op.k;
    var w := Write(cfg, s, k, op.e);
    var t := TrackWritten(tracks[k], op.e);
    var mid := tracks[k := t];
    WriteKeeps(cfg, s, tracks, k, op.e);
    CrashKeeps(cfg, w, mid, PathOf(k), op.written);
    CrashRecorded(cfg, ops, op, tracks[k]);
    PutRecorded(cfg, ops, op, tracks, t);
    var crashed := w.(files := CrashFiles(cfg, w.files, PathOf(k), op.written));
    after := AfterRestart(cfg, ops + [op], crashed, mid, op.listing);
  }

  lemma {:induction false} RunKeeps(cfg: Config, ops: seq<Op>) returns (tracks: map<Key, Track>)
    requires Lawful(cfg.codec) && Run(cfg, ops).Some?
    ensures Inv(cfg, Run(cfg, ops).value, tracks) && Recorded(cfg, ops, tracks)
  {
    if ops == [] {
      tracks := map[];
    } else {
      var n := |ops| - 1;
      var before := RunKeeps(cfg, ops[..n]);
      assert ops == ops[..n] + [ops[n]];
      tracks := StepKeeps(cfg, ops[..n], ops[n], Run(cfg, ops[..n]).value, before);
    }
  }

  /** After every run, replaying a live session's file gives, if no event in it is too long, the
      metadata it was created with and a suffix, on the persisted fields, of every non-partial
      event appended since: all of them if its file was never compacted, at least `keep` of them
      otherwise. If one is too long it is that error. The memory holds a suffix too, and one
      that starts no later. */
  lemma ReplayGivesHistory(cfg: Config, ops: seq<Op>, k: Key) returns (memoryFrom: nat)
    requires Lawful(cfg.codec) && Run(cfg, ops).Some? && Live(ops, k)
    ensures var from := FileFrom(cfg, ops, k);
            && memoryFrom <= from <= |History(ops, k)|
            && (from == 0 || |History(ops, k)| - from >= cfg.Keep())
            && (!Compacted(cfg, ops, k) ==> from == 0)
    ensures var s := Run(cfg, ops).value;
            && PathOf(k) in s.files
            && Replay(cfg.codec, s.files[PathOf(k)]) ==
               if AllFit(EventLines(cfg.codec, InFile(cfg, ops, k)))
               then Ok(Some(Loaded(MetaAt(ops, k), PersistedAll(InFile(cfg, ops, k)))))
               else Err(TokenTooLong)
    ensures var s := Run(cfg, ops).value;
            && k in s.memory
            && s.memory[k].state == MetaAt(ops, k).state
            && PersistedAll(s.memory[k].events) == PersistedAll(History(ops, k)[memoryFrom..])
  {
    var tracks := RunKeeps(cfg, ops);
    var t := tracks[k];
    var s := Run(cfg, ops).value;
    assert SessionFiles().path(k) in s.files;
    assert OkFor(cfg)(k, s.files[PathOf(k)], s.memory[k], t);
    assert RecordedAt(cfg, ops, k, t);
    memoryFrom := t.memoryFrom;
    if !Compacted(cfg, ops, k) { NeverCompacted(cfg, ops, k); }
    ReplayFile(cfg.codec, t.meta, Kept(t));
  }

  /** After every run, a restart, or a crash in a compaction and the restart after it, succeeds if
      and only if no live session has an event in its file that is too long for the scanner; no
      other allowed step fails. */
  lemma RestartsSucceed(cfg: Config, ops: seq<Op>, op: Op)
    requires Lawful(cfg.codec) && Run(cfg, ops).Some? && Allowed(cfg, Run(cfg, ops).value, op)
    ensures Run(cfg, ops + [op]).Some? <==> (Restarts(op) ==> Readable(cfg, ops + [op]))
  {
    var tracks := RunKeeps(cfg, ops);
    var after := StepKeeps(cfg, ops, op, Run(cfg, ops).value, tracks);
    assert (ops + [op])[..|ops|] == ops;
  }

  // ---------------------------------------------------------------- when a file is compacted

  /** A limit that is not positive is the default: ten megabytes, two hundred events. */
  lemma Limits(cfg: Config)
    ensures cfg.Threshold() == if cfg.compactThreshold > 0 then cfg.compactThreshold else 10_485_760
    ensures cfg.Keep() == if cfg.compactKeep > 0 then cfg.compactKeep else 200
  {
  }

  /** The text of the session's file and one more line. */
  ghost function WithLine(c: Codec, text: string, e: Event): string { text + EventLine(c, e) + [NL] }

  /** An append to a live session compacts its file exactly when the text that it held and the
      new line together reach the threshold, and it then holds more than `keep` events. Then it
      starts at the last `keep` of the history; otherwise where it started before, with the line
      added to its text. */
  lemma CompactsAtThreshold(cfg: Config, ops: seq<Op>, k: Key, e: Event)
    requires Lawful(cfg.codec) && Run(cfg, ops).Some? && Live(ops, k) && !e.partial
    ensures PathOf(k) in Run(cfg, ops).value.files
    ensures var after := ops + [OpAppend(k, e)];
            var text := WithLine(cfg.codec, Run(cfg, ops).value.files[PathOf(k)], e);
            var over := |text| >= cfg.Threshold() && |InFile(cfg, ops, k)| + 1 > cfg.Keep();
            && Run(cfg, after).Some? && PathOf(k) in Run(cfg, after).value.files
            && History(after, k) == History(ops, k) + [e]
            && FileFrom(cfg, after, k) ==
               (if over then |History(after, k)| - cfg.Keep() else FileFrom(cfg, ops, k))
            && (!over ==> Run(cfg, after).value.files[PathOf(k)] == text)
  {
    var s := Run(cfg, ops).value;
    var tracks := RunKeeps(cfg, ops);
    assert RecordedAt(cfg, ops, k, tracks[k]);
    AppendCompacts(cfg, s, tracks, k, e);
    RestartsSucceed(cfg, ops, OpAppend(k, e));
    AppendFrom(cfg, ops, k, e);
  }

  /** So after it the file is below the threshold or holds no more than `keep` events. */
  lemma SmallOrFew(cfg: Config, ops: seq<Op>, k: Key, e: Event)
    requires Lawful(cfg.codec) && Run(cfg, ops).Some? && Live(ops, k) && !e.partial
    ensures var after := ops + [OpAppend(k, e)];
            && Run(cfg, after).Some? && PathOf(k) in Run(cfg, after).value.files
            && (|Run(cfg, after).value.files[PathOf(k)]| < cfg.Threshold() || |InFile(cfg, after, k)| <= cfg.Keep())
  {
    CompactsAtThreshold(cfg, ops, k, e);
  }

  lemma AppendFrom(cfg: Config, ops: seq<Op>, k: Key, e: Event)
    requires Run(cfg, ops).Some? && Live(ops, k) && !e.partial && k in Run(cfg, ops).value.memory
    requires Run(cfg, ops + [OpAppend(k, e)]).Some?
    ensures var s, after := Run(cfg, ops).value, ops + [OpAppend(k, e)];
            && Run(cfg, after).value == Append(cfg, s, k, e)
            && History(after, k) == History(ops, k) + [e]
            && FileFrom(cfg, after, k) ==
               if DueAt(cfg, Write(cfg, s, k, e).files, PathOf(k)).Some? && |History(after, k)| > cfg.Keep()
               then |History(after, k)| - cfg.Keep() else FileFrom(cfg, ops, k)
  {
    assert (ops + [OpAppend(k, e)])[..|ops|] == ops;
  }

  /** The same of one state. */
  lemma AppendCompacts(cfg: Config, s: Store, tracks: map<Key, Track>, k: Key, e: Event)
    requires Inv(cfg, s, tracks) && k in tracks && !e.partial
    ensures k in s.memory && PathOf(k) in s.files && tracks[k].fileFrom <= |tracks[k].history|
    ensures var text := WithLine(cfg.codec, s.files[PathOf(k)], e);
            var held := |Kept(tracks[k])| + 1;
            var over := |text| >= cfg.Threshold() && held > cfg.Keep();
            && (DueAt(cfg, Write(cfg, s, k, e).files, PathOf(k)).Some? <==> over)
            && PathOf(k) in Append(cfg, s, k, e).files
            && (!over ==> Append(cfg, s, k, e).files[PathOf(k)] == text)
  {
    assert SessionFiles().path(k) in s.files;
    var d, m, t := s.files[PathOf(k)], s.memory[k], tracks[k];
    assert OkFor(cfg)(k, d, m, t);
    WriteFile(cfg, d, t, e);
    DueWritten(cfg, WithLine(cfg.codec, d, e), TrackWritten(t, e));
    assert |Kept(TrackWritten(t, e))| == |Kept(t)| + 1;
  }

  /** A written file is due for compaction exactly when it is large and holds more than `keep`
      events. */
  lemma DueWritten(cfg: Config, d: string, t: Track)
    requires Lawful(cfg.codec) && FileOk(cfg, d, t)
    ensures Due(cfg, d).Some? <==> |d| >= cfg.Threshold() && |Kept(t)| > cfg.Keep()
  {
    CompactWritten(cfg.codec, cfg.Keep(), t.meta, Kept(t));
  }

  // ---------------------------------------------------------------- paths

  predicate Without(s: string, x: char) { x !in s }

  /** Two sessions of one application share a file exactly when joining user and session
      with an underscore gives the same text. */
  lemma PathCollision(j: Key, k: Key)
    ensures PathOf(j) == PathOf(k) <==> j.app == k.app && j.user + "_" + j.id == k.user + "_" + k.id
  {
    var a, b := j.user + "_" + j.id, k.user + "_" + k.id;
    if PathOf(j) == PathOf(k) {
      assert a + EXT == b + EXT;
      assert a == (a + EXT)[..|a + EXT| - |EXT|];
      assert b == (b + EXT)[..|b + EXT| - |EXT|];
    }
  }

  /** User names without an underscore keep the files of distinct sessions apart. */
  lemma PathsApart(j: Key, k: Key)
    requires Without(j.user, '_') && Without(k.user, '_') && j != k
    ensures PathOf(j) != PathOf(k)
  {
    PathCollision(j, k);
    var a, b := j.user + "_" + j.id, k.user + "_" + k.id;
    if a == b {
      assert a[|j.user|] == '_' && b[|k.user|] == '_';
      assert forall i :: 0 <= i < |j.user| ==> a[i] == j.user[i];
      assert forall i :: 0 <= i < |k.user| ==> b[i] == k.user[i];
      if |j.user| == |k.user| {
        assert j.user == a[..|j.user|] && k.user == b[..|k.user|];
        assert j.id == a[|j.user| + 1..] && k.id == b[|k.user| + 1..];
      }
    }
  }

  /** With underscores two live sessions can share a file. */
  lemma PathsCanCollide()
    ensures PathOf(Key("app", "a", "b_c")) == PathOf(Key("app", "a_b", "c"))
  {
    PathCollision(Key("app", "a", "b_c"), Key("app", "a_b", "c"));
    assert "a" + "_" + "b_c" == "a_b" + "_" + "c";
  }
}
