/** The service object: its files and its in-memory store, updated step by step, each method
    against the operation of SessionStore that specifies it. */
module SessionService {
  import opened Common
  import opened JsonLines
  import opened SessionLog
  import Spec = SessionStore

  class JSONLService {
    const cfg: Spec.Config
    var files: Files
    var inner: Memory

    constructor (cfg: Spec.Config, files: Files)
      ensures this.cfg == cfg && this.files == files && inner == map[]
    {
      this.cfg, this.files, this.inner := cfg, files, map[];
    }

    ghost function View(): Spec.Store
      reads this
    {
      Spec.Store(files, inner)
    }

    method AppendLine(p: Path, line: string)
      modifies this`files
      ensures files == Spec.AppendLine(old(files), p, line)
    {
      if p !in files {
        files := files[p := ""];
      }
      files := files[p := files[p] + line + [NL]];
    }

    method Create(k: Key, state: State, now: int) returns (ok: bool)
      modifies this
      ensures View() == Spec.Create(cfg, old(View()), k, state, now)
      ensures ok == (k !in old(inner))
    {
      if k in inner {
        return false;
      }
      inner := inner[k := Session(state, [])];
      AppendLine(PathOf(k), MetaLine(cfg.codec, Meta(k, now, state)));
      return true;
    }

    method Delete(k: Key)
      modifies this
      ensures View() == Spec.Delete(old(View()), k)
    {
      inner := inner - {k};
      files := files - {PathOf(k)};
    }

    method AppendEvent(k: Key, e: Event) returns (ok: bool)
      modifies this
      ensures View() == Spec.Append(cfg, old(View()), k, e)
      ensures ok == (k in old(inner))
    {
      if k !in inner {
        return false;
      }
      if e.partial {
        return true;
      }
      inner := inner[k := inner[k].(events := inner[k].events + [e])];
      AppendLine(PathOf(k), EventLine(cfg.codec, e));
      MaybeCompact(PathOf(k));
      return true;
    }

    method MaybeCompact(p: Path)
      modifies this`files
      ensures files == Spec.MaybeCompact(cfg, old(files), p)
    {
      if p !in files || |files[p]| < cfg.Threshold() {
        return;
      }
      Compact(p);
    }

    /** Writes the kept lines to the temporary file, then renames it over the session file. */
    method Compact(p: Path)
      requires p in files
      modifies this`files
      ensures match Spec.CompactedText(cfg.Keep(), old(files)[p])
              case None => files == old(files)
              case Some(text) => files == (old(files) - {TmpOf(p)})[p := text]
    {
      var keep := cfg.Keep();
      var lines := Split(TrimRight(files[p]));
      if |lines| <= keep + 1 {
        return;
      }
      var compacted := [lines[0]] + lines[|lines| - keep..];
      var tmp, content := TmpOf(p), Join(compacted) + [NL];
      files := files[tmp := ""];
      files := files[tmp := content];
      assert |tmp.name| == |p.name| + |TMP|;
      files := files[p := files[tmp]] - {tmp};
    }

    /** loadEvents: the replay loop. */
    method LoadEvents(lines: seq<string>) returns (r: Result<seq<Event>, LoadError>)
      ensures r == ReplayEvents(cfg.codec, lines)
    {
      var events: seq<Event> := [];
      var i := 0;
      while i < |lines|
        invariant 0 <= i <= |lines|
        invariant ReplayEvents(cfg.codec, lines[..i]) == Ok(events)
      {
        var line := lines[i];
        assert lines[..i + 1][..i] == lines[..i];
        var step := ReplayLine(cfg.codec, events, line);
        if step.Err? {
          ErrStays(cfg.codec, lines, i + 1);
          return step;
        }
        events := step.value;
        i := i + 1;
      }
      assert lines[..i] == lines;
      return Ok(events);
    }

    /** loadFile: replays one file into the store. */
    method LoadFile(p: Path) returns (err: Option<LoadError>)
      requires p in files && HasSuffix(p.name, EXT)
      modifies this`inner
      ensures match Spec.LoadInto(cfg.codec, old(inner), p, files[p])
              case Err(e) => err == Some(e)
              case Ok(m) => err == None && inner == m
    {
      var sc := Scan(files[p]);
      if sc.lines == [] {
        return None;
      }
      match cfg.codec.dec(sc.lines[0])
      case None => return Some(ParseMetadata);
      case Some(EventRec(_)) => return Some(ExpectedMetadata);
      case Some(OtherRec) => return Some(ExpectedMetadata);
      case Some(MetaRec(meta)) =>
        if meta.key in inner {
          return Some(SessionExists);
        }
        var events := LoadEvents(sc.lines[1..]);
        if events.Err? {
          return Some(events.error);
        }
        if sc.tooLong {
          return Some(TokenTooLong);
        }
        inner := inner[meta.key := Session(meta.state, events.value)];
        return None;
    }

    /** loadAll: replays every session file of a directory listing into an empty store. */
    method LoadAll(listing: seq<Path>) returns (err: Option<LoadError>)
      requires forall i :: 0 <= i < |listing| ==> listing[i] in files
      modifies this`inner
      ensures err.None? <==> Spec.LoadAll(cfg.codec, files, listing).Ok?
      ensures err.None? ==> Spec.LoadAll(cfg.codec, files, listing) == Ok(inner)
    {
      inner := map[];
      var i := 0;
      while i < |listing|
        invariant 0 <= i <= |listing|
        invariant Spec.LoadAll(cfg.codec, files, listing[..i]) == Ok(inner)
      {
        var p := listing[i];
        assert listing[..i + 1][..i] == listing[..i];
        if HasSuffix(p.name, EXT) {
          var e := LoadFile(p);
          if e.Some? {
            LoadErrStays(cfg.codec, files, listing, i + 1);
            return e;
          }
        }
        i := i + 1;
      }
      assert listing[..i] == listing;
      return None;
    }
  }

  /** A failed prefix of a replay fails the whole with the same error. */
  lemma {:induction false} ErrStays(c: Codec, lines: seq<string>, n: nat)
    requires n <= |lines| && ReplayEvents(c, lines[..n]).Err?
    ensures ReplayEvents(c, lines) == ReplayEvents(c, lines[..n])
    decreases |lines|
  {
    if n == |lines| {
      assert lines[..n] == lines;
    } else {
      var front := lines[..|lines| - 1];
      assert front[..n] == lines[..n];
      ErrStays(c, front, n);
    }
  }

  lemma {:induction false} LoadErrStays(c: Codec, files: Files, listing: seq<Path>, n: nat)
    requires n <= |listing| && forall i :: 0 <= i < |listing| ==> listing[i] in files
    requires Spec.LoadAll(c, files, listing[..n]).Err?
    ensures Spec.LoadAll(c, files, listing).Err?
    decreases |listing|
  {
    if n == |listing| {
      assert listing[..n] == listing;
    } else {
      var front := listing[..|listing| - 1];
      assert front[..n] == listing[..n];
      LoadErrStays(c, files, front, n);
    }
  }
}
