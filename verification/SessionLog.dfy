/** The persistent session log: an in-memory session store written through to one
    append-only file a session, with compaction and replay at start-up. */
module SessionLog {
  import opened Common
  import opened JsonLines

  // ---------------------------------------------------------------- data model

  type State = map<string, string>

  datatype Content = Content(role: string, parts: seq<string>)

  datatype Key = Key(app: string, user: string, id: string)

  /** A session event. `volatile` stands for everything no record field carries. */
  datatype Event = Event(
    id: string, timestamp: int, invocation: string, author: string, branch: string,
    content: Option<Content>, turnComplete: bool, partial: bool, volatile: string)

  datatype Session = Session(state: State, events: seq<Event>)

  datatype Meta = Meta(key: Key, createdAt: int, state: State)

  datatype EventRecord = EventRecord(
    id: string, timestamp: int, invocation: string, author: string, branch: string,
    contentJson: string, turnComplete: bool, partial: bool)

  datatype Record = MetaRec(meta: Meta) | EventRec(event: EventRecord) | OtherRec

  /** encoding/json, as far as the log depends on it. */
  datatype Codec = Codec(
    enc: Record -> string, dec: string -> Option<Record>,
    encContent: Content -> string, decContent: string -> Option<Content>)

  ghost predicate Lawful(c: Codec) {
    && (forall r :: Plain(c.enc(r)) && c.dec(c.enc(r)) == Some(r))
    && (forall x :: c.encContent(x) != "" && c.encContent(x) != "null"
                    && c.decContent(c.encContent(x)) == Some(x))
  }

  /** A file below the data directory: its application folder and its base name. */
  datatype Path = Path(app: string, name: string)

  const EXT := ".jsonl"
  const TMP := ".compact.tmp"

  function PathOf(k: Key): Path { Path(k.app, k.user + "_" + k.id + EXT) }

  function TmpOf(p: Path): Path { Path(p.app, p.name + TMP) }

  predicate HasSuffix(s: string, suffix: string) {
    |suffix| <= |s| && s[|s| - |suffix|..] == suffix
  }

  type Files = map<Path, string>
  type Memory = map<Key, Session>

  // ---------------------------------------------------------------- records

  /** The part of an event that reaches the file. */
  function Persisted(e: Event): Event { e.(volatile := "") }

  function PersistedAll(es: seq<Event>): (r: seq<Event>)
    ensures |r| == |es| && forall i :: 0 <= i < |es| ==> r[i] == Persisted(es[i])
  {
    seq(|es|, i requires 0 <= i < |es| => Persisted(es[i]))
  }

  function ToRecord(c: Codec, e: Event): Record {
    EventRec(EventRecord(e.id, e.timestamp, e.invocation, e.author, e.branch,
                         if e.content.Some? then c.encContent(e.content.value) else "",
                         e.turnComplete, e.partial))
  }

  function FromRecord(c: Codec, r: EventRecord): Option<Event> {
    var bare := Event(r.id, r.timestamp, r.invocation, r.author, r.branch,
                      None, r.turnComplete, r.partial, "");
    if r.contentJson != "" && r.contentJson != "null" then
      match c.decContent(r.contentJson)
      case None => None
      case Some(x) => Some(bare.(content := Some(x)))
    else Some(bare)
  }

  lemma RecordRoundTrip(c: Codec, e: Event)
    requires Lawful(c)
    ensures FromRecord(c, ToRecord(c, e).event) == Some(Persisted(e))
  {
    match e.content
    case None =>
    case Some(x) => assert c.decContent(c.encContent(x)) == Some(x);
  }

  function EventLine(c: Codec, e: Event): string { c.enc(ToRecord(c, e)) }

  function EventLines(c: Codec, es: seq<Event>): (r: seq<string>)
    ensures |r| == |es| && forall i :: 0 <= i < |es| ==> r[i] == EventLine(c, es[i])
  {
    seq(|es|, i requires 0 <= i < |es| => EventLine(c, es[i]))
  }

  function MetaLine(c: Codec, m: Meta): string { c.enc(MetaRec(m)) }

  /** The lines and the bytes of a session file holding these events. */
  function FileLines(c: Codec, m: Meta, es: seq<Event>): seq<string> {
    [MetaLine(c, m)] + EventLines(c, es)
  }

  function FileOf(c: Codec, m: Meta, es: seq<Event>): string {
    Unlines(FileLines(c, m, es))
  }

  lemma FilePlain(c: Codec, m: Meta, es: seq<Event>)
    requires Lawful(c)
    ensures AllPlain(FileLines(c, m, es))
  {
    forall i | 0 <= i < |es| ensures Plain(EventLines(c, es)[i]) {
      assert Plain(c.enc(ToRecord(c, es[i])));
    }
    assert Plain(c.enc(MetaRec(m)));
  }

  // ---------------------------------------------------------------- replay

  datatype LoadError =
    | ParseMetadata | ExpectedMetadata | ParseEvent | ParseContent | TokenTooLong | SessionExists

  datatype Loaded = Loaded(meta: Meta, events: seq<Event>)

  /** loadEvents, on the lines after the first. */
  function ReplayEvents(c: Codec, lines: seq<string>): Result<seq<Event>, LoadError> {
    if lines == [] then Ok([])
    else
      var n := |lines| - 1;
      match ReplayEvents(c, lines[..n])
      case Err(e) => Err(e)
      case Ok(done) => ReplayLine(c, done, lines[n])
  }

  /** One turn of the replay loop. */
  function ReplayLine(c: Codec, done: seq<Event>, line: string): Result<seq<Event>, LoadError> {
    if line == "" then Ok(done)
    else
      match c.dec(line)
      case None => Err(ParseEvent)
      case Some(EventRec(r)) =>
        (match FromRecord(c, r)
         case None => Err(ParseContent)
         case Some(e) => Ok(if e.partial then done else done + [e]))
      case Some(_) => Ok(done)
  }

  /** The metadata that a file begins with: none for a file whose first line cannot be
      scanned. */
  function Header(c: Codec, data: string): Result<Option<Meta>, LoadError> {
    var sc := Scan(data);
    if sc.lines == [] then Ok(None)
    else
      match c.dec(sc.lines[0])
      case None => Err(ParseMetadata)
      case Some(MetaRec(m)) => Ok(Some(m))
      case Some(_) => Err(ExpectedMetadata)
  }

  /** The events behind the metadata. */
  function Body(c: Codec, data: string): Result<seq<Event>, LoadError>
    requires Scan(data).lines != []
  {
    match ReplayEvents(c, Scan(data).lines[1..])
    case Err(e) => Err(e)
    case Ok(es) => if Scan(data).tooLong then Err(TokenTooLong) else Ok(es)
  }

  /** What loadFile reads from a file. */
  function Replay(c: Codec, data: string): Result<Option<Loaded>, LoadError> {
    match Header(c, data)
    case Err(e) => Err(e)
    case Ok(None) => Ok(None)
    case Ok(Some(m)) =>
      match Body(c, data)
      case Err(e) => Err(e)
      case Ok(es) => Ok(Some(Loaded(m, es)))
  }

  ghost predicate NoPartial(es: seq<Event>) {
    forall i :: 0 <= i < |es| ==> !es[i].partial
  }

  lemma {:induction false} ReplayEventLines(c: Codec, es: seq<Event>)
    requires Lawful(c) && NoPartial(es)
    ensures ReplayEvents(c, EventLines(c, es)) == Ok(PersistedAll(es))
  {
    if es == [] {
      assert EventLines(c, es) == [];
    } else {
      var n := |es| - 1;
      ReplayEventLines(c, es[..n]);
      assert EventLines(c, es)[..n] == EventLines(c, es[..n]);
      RecordRoundTrip(c, es[n]);
      assert c.dec(EventLine(c, es[n])) == Some(ToRecord(c, es[n]));
      assert Plain(EventLine(c, es[n]));
      assert PersistedAll(es) == PersistedAll(es[..n]) + [Persisted(es[n])];
    }
  }

  /** What replaying a written file gives, exactly: its events on the persisted fields if
      every line fits the scanner; no session if the metadata line does not; an error
      otherwise. */
  lemma ReplayFile(c: Codec, m: Meta, es: seq<Event>)
    requires Lawful(c) && NoPartial(es)
    ensures Replay(c, FileOf(c, m, es)) ==
            if !Fits(MetaLine(c, m)) then Ok(None)
            else if AllFit(EventLines(c, es)) then Ok(Some(Loaded(m, PersistedAll(es))))
            else Err(TokenTooLong)
  {
    var lines := FileLines(c, m, es);
    FilePlain(c, m, es);
    ScanUnlines(lines);
    var n := FitPrefix(lines);
    if n > 0 {
      assert lines[..n][0] == MetaLine(c, m);
      assert c.dec(MetaLine(c, m)) == Some(MetaRec(m));
      assert lines[..n][1..] == EventLines(c, es[..n - 1]);
      ReplayEventLines(c, es[..n - 1]);
      if n == |lines| {
        assert es[..n - 1] == es;
        forall i | 0 <= i < |es| ensures Fits(EventLines(c, es)[i]) { assert Fits(lines[i + 1]); }
      } else {
        assert !Fits(EventLines(c, es)[n - 1]);
      }
    }
  }
}
