/** The service's operations as functions on its files and its memory, what a run of them
    records, and the invariant that ties the two together. */
module SessionStore {
  import opened Common
  import opened JsonLines
  import opened KeyedFiles
  import opened SessionLog

  const DEFAULT_THRESHOLD: int := 10 * 1024 * 1024
  const DEFAULT_KEEP: int := 200

  datatype Config = Config(codec: Codec, compactThreshold: int, compactKeep: int) {
    function Threshold(): int { if compactThreshold <= 0 then DEFAULT_THRESHOLD else compactThreshold }

    function Keep(): nat { if compactKeep <= 0 then DEFAULT_KEEP else compactKeep }
  }

  datatype Store = Store(files: Files, memory: Memory)

  // ---------------------------------------------------------------- operations

  function AppendLine(files: Files, p: Path, line: string): Files {
    files[p := (if p in files then files[p] else "") + line + [NL]]
  }

  /** What compact would leave in a file; nothing when there is nothing to compact. */
  function CompactedText(keep: nat, data: string): Option<string> { CompactedLines(keep, Split(TrimRight(data))) }

  function CompactedLines(keep: nat, lines: seq<string>): Option<string> {
    if |lines| <= keep + 1 then None else Some(Join(FirstAndLast(keep, lines)) + [NL])
  }

  /** The metadata line and the last `keep` lines. */
  function FirstAndLast(keep: nat, lines: seq<string>): seq<string>
    requires |lines| > keep + 1
  {
    [lines[0]] + lines[|lines| - keep..]
  }

  /** The text that maybeCompact will replace a file's text by, if any. */
  function Due(cfg: Config, data: string): Option<string> {
    if |data| < cfg.Threshold() then None else CompactedText(cfg.Keep(), data)
  }

  function DueAt(cfg: Config, files: Files, p: Path): Option<string> {
    if p in files then Due(cfg, files[p]) else None
  }

  function MaybeCompact(cfg: Config, files: Files, p: Path): Files {
    match DueAt(cfg, files, p)
    case None => files
    case Some(text) => (files - {TmpOf(p)})[p := text]
  }

  function Create(cfg: Config, s: Store, k: Key, state: State, now: int): Store {
    if k in s.memory then s
    else Store(AppendLine(s.files, PathOf(k), MetaLine(cfg.codec, Meta(k, now, state))),
               s.memory[k := Session(state, [])])
  }

  /** AppendEvent up to the point where its line is in the file. */
  function Write(cfg: Config, s: Store, k: Key, e: Event): Store {
    if k !in s.memory || e.partial then s
    else Store(AppendLine(s.files, PathOf(k), EventLine(cfg.codec, e)),
               s.memory[k := s.memory[k].(events := s.memory[k].events + [e])])
  }

  function Append(cfg: Config, s: Store, k: Key, e: Event): Store {
    var w := Write(cfg, s, k, e);
    if k !in s.memory || e.partial then w
    else w.(files := MaybeCompact(cfg, w.files, PathOf(k)))
  }

  function Delete(s: Store, k: Key): Store {
    Store(s.files - {PathOf(k)}, s.memory - {k})
  }

  /** loadAll over the files of a directory listing. */
  function LoadAll(c: Codec, files: Files, listing: seq<Path>): Result<Memory, LoadError>
    requires forall i :: 0 <= i < |listing| ==> listing[i] in files
  {
    if listing == [] then Ok(map[])
    else
      var n := |listing| - 1;
      match LoadAll(c, files, listing[..n])
      case Err(e) => Err(e)
      case Ok(memory) => LoadInto(c, memory, listing[n], files[listing[n]])
  }

  /** loadFile of one directory entry: the session is created before its events are read. */
  function LoadInto(c: Codec, memory: Memory, p: Path, data: string): Result<Memory, LoadError> {
    if !HasSuffix(p.name, EXT) then Ok(memory)
    else
      match Header(c, data)
      case Err(e) => Err(e)
      case Ok(None) => Ok(memory)
      case Ok(Some(m)) =>
        if m.key in memory then Err(SessionExists)
        else
          match Body(c, data)
          case Err(e) => Err(e)
          case Ok(es) => Ok(memory[m.key := Session(m.state, es)])
  }

  // ---------------------------------------------------------------- runs

  /** `Crash` is an append that dies inside compact: `written` bytes of the temporary file
      are on disk (none of it, not even the file, when negative), and the service restarts. */
  datatype Op =
    | OpCreate(k: Key, state: State, now: int)
    | OpAppend(k: Key, e: Event)
    | OpDelete(k: Key)
    | OpRestart(listing: seq<Path>)
    | OpCrash(k: Key, e: Event, written: int, listing: seq<Path>)

  function CrashFiles(cfg: Config, files: Files, p: Path, written: int): Files {
    match DueAt(cfg, files, p)
    case None => files
    case Some(text) =>
      if written < 0 then files
      else files[TmpOf(p) := text[..if written < |text| then written else |text|]]
  }

  ghost predicate ListingOf(listing: seq<Path>, files: Files) {
    Distinct(listing) && forall p :: p in listing <==> p in files
  }

  ghost function Restart(cfg: Config, s: Store, listing: seq<Path>): Result<Store, LoadError>
    requires ListingOf(listing, s.files)
  {
    match LoadAll(cfg.codec, s.files, listing)
    case Err(e) => Err(e)
    case Ok(m) => Ok(s.(memory := m))
  }

  /** What the run is asked to respect: a new session takes a path no live session has and its
      metadata fits the scanner, and a listing is one of the directory. */
  ghost predicate Allowed(cfg: Config, s: Store, op: Op) {
    match op
    case OpCreate(k, state, now) =>
      && (forall j :: j in s.memory && j != k ==> PathOf(j) != PathOf(k))
      && Fits(MetaLine(cfg.codec, Meta(k, now, state)))
    case OpAppend(_, _) => true
    case OpDelete(k) => forall j :: j in s.memory && j != k ==> PathOf(j) != PathOf(k)
    case OpRestart(listing) => ListingOf(listing, s.files)
    case OpCrash(k, e, written, listing) =>
      && k in s.memory && !e.partial
      && ListingOf(listing, CrashFiles(cfg, Write(cfg, s, k, e).files, PathOf(k), written))
  }

  ghost function Exec(cfg: Config, s: Store, op: Op): Result<Store, LoadError>
    requires Allowed(cfg, s, op)
  {
    match op
    case OpCreate(k, state, now) => Ok(Create(cfg, s, k, state, now))
    case OpAppend(k, e) => Ok(Append(cfg, s, k, e))
    case OpDelete(k) => Ok(Delete(s, k))
    case OpRestart(listing) => Restart(cfg, s, listing)
    case OpCrash(k, e, written, listing) =>
      var w := Write(cfg, s, k, e);
      Restart(cfg, w.(files := CrashFiles(cfg, w.files, PathOf(k), written)), listing)
  }

  /** The state after a run from an empty directory, when every step was allowed and no
      restart failed. */
  ghost function Run(cfg: Config, ops: seq<Op>): Option<Store> {
    if ops == [] then Some(Store(map[], map[]))
    else
      var n := |ops| - 1;
      match Run(cfg, ops[..n])
      case None => None
      case Some(s) =>
        if !Allowed(cfg, s, ops[n]) then None
        else
          match Exec(cfg, s, ops[n])
          case Err(_) => None
          case Ok(t) => Some(t)
  }

  // ---------------------------------------------------------------- what a run records

  /** Whether the session is live after the operations, read off the operations alone. */
  predicate Live(ops: seq<Op>, k: Key) {
    if ops == [] then false
    else
      var n := |ops| - 1;
      match ops[n]
      case OpCreate(j, _, _) => j == k || Live(ops[..n], k)
      case OpDelete(j) => j != k && Live(ops[..n], k)
      case _ => Live(ops[..n], k)
  }

  /** The metadata written by the create that made the session live. */
  function MetaAt(ops: seq<Op>, k: Key): Meta {
    if ops == [] then Meta(k, 0, map[])
    else
      var n := |ops| - 1;
      match ops[n]
      case OpCreate(j, state, now) =>
        if j == k && !Live(ops[..n], k) then Meta(k, now, state) else MetaAt(ops[..n], k)
      case _ => MetaAt(ops[..n], k)
  }

  /** Every non-partial event appended to the session since it was created. */
  function History(ops: seq<Op>, k: Key): (h: seq<Event>)
    ensures forall i :: 0 <= i < |h| ==> !h[i].partial
  {
    if ops == [] then []
    else
      var n := |ops| - 1;
      var before := History(ops[..n], k);
      match ops[n]
      case OpCreate(j, _, _) => if j == k && !Live(ops[..n], k) then [] else before
      case OpAppend(j, e) => if j == k && Live(ops[..n], k) && !e.partial then before + [e] else before
      case OpCrash(j, e, _, _) => if j == k && Live(ops[..n], k) && !e.partial then before + [e] else before
      case _ => before
  }

  /** Whether an operation after others compacts the session's file. */
  ghost predicate Compacts(cfg: Config, before: seq<Op>, op: Op, k: Key) {
    && op.OpAppend? && op.k == k && Live(before, k) && !op.e.partial && Run(cfg, before).Some?
    && DueAt(cfg, Write(cfg, Run(cfg, before).value, k, op.e).files, PathOf(k)).Some?
  }

  /** Whether the session's file was rewritten by a compaction since the session was created. */
  ghost predicate Compacted(cfg: Config, ops: seq<Op>, k: Key) {
    if ops == [] then false
    else
      var n := |ops| - 1;
      if ops[n].OpCreate? && ops[n].k == k && !Live(ops[..n], k) then false
      else Compacted(cfg, ops[..n], k) || Compacts(cfg, ops[..n], ops[n], k)
  }

  /** Where in the history the session's file starts: the last compaction kept the last `keep`
      of the events so far. */
  ghost function FileFrom(cfg: Config, ops: seq<Op>, k: Key): (from: nat)
    ensures from <= |History(ops, k)|
  {
    if ops == [] then 0
    else
      var n := |ops| - 1;
      if ops[n].OpCreate? && ops[n].k == k && !Live(ops[..n], k) then 0
      else if Compacts(cfg, ops[..n], ops[n], k) && |History(ops, k)| > cfg.Keep() then |History(ops, k)| - cfg.Keep()
      else FileFrom(cfg, ops[..n], k)
  }

  lemma {:induction false} NeverCompacted(cfg: Config, ops: seq<Op>, k: Key)
    requires !Compacted(cfg, ops, k)
    ensures FileFrom(cfg, ops, k) == 0
  {
    if ops != [] && !(ops[|ops| - 1].OpCreate? && ops[|ops| - 1].k == k && !Live(ops[..|ops| - 1], k)) {
      NeverCompacted(cfg, ops[..|ops| - 1], k);
    }
  }

  /** The events that are in the session's file. */
  ghost function InFile(cfg: Config, ops: seq<Op>, k: Key): seq<Event> {
    History(ops, k)[FileFrom(cfg, ops, k)..]
  }

  /** No event in the file of a live session is too long for the scanner. */
  ghost predicate Readable(cfg: Config, ops: seq<Op>) {
    forall k :: Live(ops, k) ==> AllFit(EventLines(cfg.codec, InFile(cfg, ops, k)))
  }

  // ---------------------------------------------------------------- the invariant

  /** A live session: its metadata, its history, and where in the history its file and its
      memory start. */
  datatype Track = Track(meta: Meta, history: seq<Event>, fileFrom: nat, memoryFrom: nat)

  /** The part of the history that is in the file. */
  ghost function Kept(t: Track): seq<Event>
    requires t.fileFrom <= |t.history|
  {
    t.history[t.fileFrom..]
  }

  /** The file holds the metadata and a suffix of the history, at least `keep` events long
      unless it is all of it. */
  ghost predicate FileOk(cfg: Config, d: string, t: Track) {
    && t.fileFrom <= |t.history|
    && (t.fileFrom > 0 ==> |t.history| - t.fileFrom >= cfg.Keep())
    && NoPartial(t.history)
    && d == FileOf(cfg.codec, t.meta, Kept(t))
  }

  /** The memory holds the history from the file's first event on, or from an earlier one. */
  ghost predicate MemoryOk(m: Session, t: Track) {
    && t.memoryFrom <= t.fileFrom <= |t.history|
    && m.state == t.meta.state
    && PersistedAll(m.events) == PersistedAll(t.history[t.memoryFrom..])
  }

  ghost predicate SessionOk(cfg: Config, k: Key, d: string, m: Session, t: Track) {
    t.meta.key == k && FileOk(cfg, d, t) && MemoryOk(m, t)
  }

  ghost function OkFor(cfg: Config): (Key, string, Session, Track) -> bool {
    (k, d, m, t) => SessionOk(cfg, k, d, m, t)
  }

  ghost function SessionFiles(): Layout<Key, Path> {
    Layout(PathOf, (p: Path) => HasSuffix(p.name, EXT))
  }

  ghost predicate Inv(cfg: Config, s: Store, tracks: map<Key, Track>) {
    Lawful(cfg.codec) && Tied(SessionFiles(), OkFor(cfg), s.files, s.memory, tracks)
  }

  /** The scanner can hold every line of the session's file. */
  ghost predicate TrackFits(c: Codec, t: Track) {
    t.fileFrom <= |t.history| && Fits(MetaLine(c, t.meta)) && AllFit(EventLines(c, Kept(t)))
  }

  lemma SessionFilesOwned(p: Path)
    ensures PathsOwned(SessionFiles())
    ensures !HasSuffix(TmpOf(p).name, EXT)
  {
    var name := TmpOf(p).name;
    assert name[|name| - 1] == 'p';
    assert name[|name| - |EXT|..][|EXT| - 1] == name[|name| - 1];
  }

  // ---------------------------------------------------------------- one session's file

  lemma WriteMemory(m: Session, t: Track, e: Event)
    requires MemoryOk(m, t)
    ensures MemoryOk(m.(events := m.events + [e]), t.(history := t.history + [e]))
  {
    var h := t.history[t.memoryFrom..];
    assert PersistedAll(m.events + [e]) == PersistedAll(m.events) + [Persisted(e)];
    assert (t.history + [e])[t.memoryFrom..] == h + [e];
    assert PersistedAll(h + [e]) == PersistedAll(h) + [Persisted(e)];
  }

  lemma WriteFile(cfg: Config, d: string, t: Track, e: Event)
    requires FileOk(cfg, d, t) && !e.partial
    ensures FileOk(cfg, d + EventLine(cfg.codec, e) + [NL], t.(history := t.history + [e]))
  {
    var c, es := cfg.codec, Kept(t);
    assert (t.history + [e])[t.fileFrom..] == es + [e];
    assert FileLines(c, t.meta, es + [e]) == FileLines(c, t.meta, es) + [EventLine(c, e)];
    UnlinesAppend(FileLines(c, t.meta, es), EventLine(c, e));
  }

  lemma LastLines(c: Codec, es: seq<Event>, n: nat)
    requires n <= |es|
    ensures EventLines(c, es)[n..] == EventLines(c, es[n..])
  {
  }

  /** The lines compact keeps are the lines of the file of the last events. */
  lemma KeptLines(c: Codec, keep: nat, m: Meta, es: seq<Event>)
    requires 0 < keep < |es|
    ensures var lines := FileLines(c, m, es);
            [lines[0]] + lines[|lines| - keep..] == FileLines(c, m, es[|es| - keep..])
  {
    var n := |es| - keep;
    var lines := FileLines(c, m, es);
    assert lines[0] == MetaLine(c, m) && |lines| - keep == 1 + n;
    assert lines[1 + n..] == EventLines(c, es)[n..];
    LastLines(c, es, n);
  }

  /** Compacting written lines keeps the first and the last `keep` of them. */
  lemma CompactLines(keep: nat, lines: seq<string>)
    requires lines != [] && AllPlain(lines) && keep > 0
    ensures CompactedLines(keep, lines) ==
            if |lines| <= keep + 1 then None else Some(Unlines(FirstAndLast(keep, lines)))
  {
    if |lines| > keep + 1 {
      FirstAndLastPlain(keep, lines);
      UnlinesIsJoin(FirstAndLast(keep, lines));
    }
  }

  lemma FirstAndLastPlain(keep: nat, lines: seq<string>)
    requires |lines| > keep + 1 && AllPlain(lines)
    ensures FirstAndLast(keep, lines) != [] && AllPlain(FirstAndLast(keep, lines))
  {
    var kept := FirstAndLast(keep, lines);
    forall i | 0 <= i < |kept| ensures Plain(kept[i]) {
      assert kept[i] == if i == 0 then lines[0] else lines[|lines| - keep + i - 1];
    }
  }

  /** Compacting a written file gives the file of its metadata and its last `keep` events,
      and nothing is compacted exactly when there are no more than `keep`. */
  lemma CompactWritten(c: Codec, keep: nat, m: Meta, es: seq<Event>)
    requires Lawful(c) && keep > 0
    ensures CompactedText(keep, FileOf(c, m, es)) ==
            if |es| <= keep then None else Some(FileOf(c, m, es[|es| - keep..]))
  {
    FilePlain(c, m, es);
    TrimSplitRecovers(FileLines(c, m, es));
    CompactLines(keep, FileLines(c, m, es));
    if |es| > keep {
      KeptLines(c, keep, m, es);
    }
  }

  /** What a compaction, if one is due, does to the session's track. */
  ghost function TrackCompacted(cfg: Config, d: string, t: Track): Track {
    if Due(cfg, d).Some? && |t.history| > cfg.Keep()
    then t.(fileFrom := |t.history| - cfg.Keep()) else t
  }

  lemma CompactFile(cfg: Config, d: string, t: Track)
    requires Lawful(cfg.codec) && FileOk(cfg, d, t)
    ensures FileOk(cfg, if Due(cfg, d).Some? then Due(cfg, d).value else d, TrackCompacted(cfg, d, t))
    ensures t.fileFrom <= TrackCompacted(cfg, d, t).fileFrom
  {
    CompactWritten(cfg.codec, cfg.Keep(), t.meta, Kept(t));
    if Due(cfg, d).Some? {
      NewestKept(t, cfg.Keep());
    }
  }

  /** The newest of the kept events are the newest of all. */
  lemma NewestKept(t: Track, keep: nat)
    requires t.fileFrom <= |t.history|
    ensures |Kept(t)| > keep ==> Kept(t)[|Kept(t)| - keep..] == t.history[|t.history| - keep..]
    ensures |Kept(t)| > keep ==> t.fileFrom < |t.history| - keep
  {
  }

  // ---------------------------------------------------------------- loading

  /** Whether loadFile accepts the session's file. */
  ghost predicate Loads(c: Codec, t: Track)
    requires t.fileFrom <= |t.history|
  {
    Fits(MetaLine(c, t.meta)) ==> AllFit(EventLines(c, Kept(t)))
  }

  ghost predicate Bounded(tracks: map<Key, Track>) {
    forall k :: k in tracks ==> tracks[k].fileFrom <= |tracks[k].history|
  }

  ghost predicate AllLoad(c: Codec, tracks: map<Key, Track>, listing: seq<Path>)
    requires Bounded(tracks)
  {
    forall k :: k in tracks && PathOf(k) in listing ==> Loads(c, tracks[k])
  }

  /** What a restart gives a session back as. */
  ghost function Reloaded(t: Track): Session
    requires t.fileFrom <= |t.history|
  {
    Session(t.meta.state, PersistedAll(Kept(t)))
  }

  /** The sessions a listing brings back. */
  ghost function Restored(c: Codec, tracks: map<Key, Track>, listing: seq<Path>): Memory
    requires Bounded(tracks)
  {
    map k | k in tracks && PathOf(k) in listing && Fits(MetaLine(c, tracks[k].meta)) :: Reloaded(tracks[k])
  }

  /** Listing one more file that belongs to no session. */
  lemma RestoredSame(c: Codec, tracks: map<Key, Track>, before: seq<Path>, p: Path)
    requires Bounded(tracks) && forall k :: k in tracks ==> PathOf(k) != p
    ensures Restored(c, tracks, before + [p]) == Restored(c, tracks, before)
    ensures AllLoad(c, tracks, before + [p]) == AllLoad(c, tracks, before)
  {
  }

  /** Listing one more file, the file of session k. */
  lemma RestoredMore(c: Codec, tracks: map<Key, Track>, before: seq<Path>, k: Key)
    requires Bounded(tracks) && k in tracks && PathOf(k) !in before
    requires forall j :: j in tracks && j != k ==> PathOf(j) != PathOf(k)
    ensures k !in Restored(c, tracks, before)
    ensures Restored(c, tracks, before + [PathOf(k)]) ==
            if Fits(MetaLine(c, tracks[k].meta)) then Restored(c, tracks, before)[k := Reloaded(tracks[k])]
            else Restored(c, tracks, before)
    ensures AllLoad(c, tracks, before + [PathOf(k)]) == (AllLoad(c, tracks, before) && Loads(c, tracks[k]))
  {
  }

  /** On a session that is not in memory loadFile does what replaying its file says. */
  lemma LoadIntoReplays(c: Codec, memory: Memory, p: Path, d: string)
    requires HasSuffix(p.name, EXT)
    requires Replay(c, d).Ok? && Replay(c, d).value.Some? ==> Replay(c, d).value.value.meta.key !in memory
    ensures match Replay(c, d)
            case Err(_) => LoadInto(c, memory, p, d).Err?
            case Ok(None) => LoadInto(c, memory, p, d) == Ok(memory)
            case Ok(Some(l)) => LoadInto(c, memory, p, d) == Ok(memory[l.meta.key := Session(l.meta.state, l.events)])
  {
  }

  /** loadFile of the file of session k, after the files before it. */
  lemma LoadOneSession(cfg: Config, d: string, tracks: map<Key, Track>, before: seq<Path>, k: Key)
    requires Lawful(cfg.codec) && Bounded(tracks) && k in tracks
    requires tracks[k].meta.key == k && FileOk(cfg, d, tracks[k])
    requires PathOf(k) !in before && HasSuffix(PathOf(k).name, EXT)
    requires forall j :: j in tracks && j != k ==> PathOf(j) != PathOf(k)
    ensures var r := LoadInto(cfg.codec, Restored(cfg.codec, tracks, before), PathOf(k), d);
            if Loads(cfg.codec, tracks[k])
            then r == Ok(Restored(cfg.codec, tracks, before + [PathOf(k)]))
            else r.Err?
  {
    ReplayFile(cfg.codec, tracks[k].meta, Kept(tracks[k]));
    RestoredMore(cfg.codec, tracks, before, k);
    LoadIntoReplays(cfg.codec, Restored(cfg.codec, tracks, before), PathOf(k), d);
  }

  lemma InvBounded(cfg: Config, s: Store, tracks: map<Key, Track>)
    requires Inv(cfg, s, tracks)
    ensures Bounded(tracks)
  {
    forall k | k in tracks ensures tracks[k].fileFrom <= |tracks[k].history| {
      assert OkFor(cfg)(k, s.files[PathOf(k)], s.memory[k], tracks[k]);
    }
  }

  /** The owner of a session file in a directory that satisfies the invariant. */
  lemma Owner(cfg: Config, s: Store, tracks: map<Key, Track>, p: Path) returns (k: Key)
    requires Inv(cfg, s, tracks) && p in s.files && HasSuffix(p.name, EXT)
    ensures k in tracks && PathOf(k) == p
    ensures tracks[k].meta.key == k && FileOk(cfg, s.files[p], tracks[k])
    ensures forall j :: j in tracks && j != k ==> PathOf(j) != p
  {
    assert SessionFiles().owned(p);
    k :| k in s.memory.Keys && SessionFiles().path(k) == p;
    assert OkFor(cfg)(k, s.files[p], s.memory[k], tracks[k]);
    forall j | j in tracks && j != k ensures PathOf(j) != p {
      assert SessionFiles().path(j) != SessionFiles().path(k);
    }
  }

  /** loadAll of one more directory entry. */
  lemma LoadOne(cfg: Config, s: Store, tracks: map<Key, Track>, before: seq<Path>, p: Path)
    requires Inv(cfg, s, tracks) && Bounded(tracks) && p in s.files && p !in before
    ensures var r := LoadInto(cfg.codec, Restored(cfg.codec, tracks, before), p, s.files[p]);
            && (AllLoad(cfg.codec, tracks, before) ==> r.Ok? == AllLoad(cfg.codec, tracks, before + [p]))
            && (r.Ok? ==> r == Ok(Restored(cfg.codec, tracks, before + [p])))
    ensures AllLoad(cfg.codec, tracks, before + [p]) ==> AllLoad(cfg.codec, tracks, before)
  {
    if HasSuffix(p.name, EXT) {
      var k := Owner(cfg, s, tracks, p);
      LoadOneSession(cfg, s.files[p], tracks, before, k);
      RestoredMore(cfg.codec, tracks, before, k);
    } else {
      SessionFilesOwned(p);
      forall j | j in tracks ensures PathOf(j) != p { assert SessionFiles().owned(SessionFiles().path(j)); }
      RestoredSame(cfg.codec, tracks, before, p);
    }
  }

  /** Loading any listing succeeds exactly when no listed file holds an event too long for
      the scanner behind metadata that fits it, and then restores exactly the sessions whose
      metadata fits. */
  lemma {:induction false} LoadAllOutcome(cfg: Config, s: Store, tracks: map<Key, Track>, listing: seq<Path>)
    requires Inv(cfg, s, tracks) && Bounded(tracks) && Distinct(listing)
    requires forall i :: 0 <= i < |listing| ==> listing[i] in s.files
    ensures LoadAll(cfg.codec, s.files, listing).Ok? == AllLoad(cfg.codec, tracks, listing)
    ensures AllLoad(cfg.codec, tracks, listing) ==>
              LoadAll(cfg.codec, s.files, listing) == Ok(Restored(cfg.codec, tracks, listing))
  {
    if listing == [] {
      assert Restored(cfg.codec, tracks, []) == map[];
    } else {
      var n := |listing| - 1;
      LoadAllOutcome(cfg, s, tracks, listing[..n]);
      LoadOne(cfg, s, tracks, listing[..n], listing[n]);
      assert listing == listing[..n] + [listing[n]];
    }
  }
}
