/** A memory and a set of files that describe the same keys: every key has its own file,
    every owned file belongs to a key, and a relation ties the two entries of a key to what
    is tracked of it. The relation is a parameter. */
module KeyedFiles {
  datatype Layout<!K, !P> = Layout(path: K -> P, owned: P -> bool)

  ghost predicate PathsOwned<K(!new), P(!new)>(l: Layout<K, P>) {
    forall k :: l.owned(l.path(k))
  }

  ghost predicate Apart<K, P>(l: Layout<K, P>, keys: set<K>) {
    forall j, k :: j in keys && k in keys && j != k ==> l.path(j) != l.path(k)
  }

  ghost predicate NoStray<K, P, D>(l: Layout<K, P>, files: map<P, D>, keys: set<K>) {
    forall p :: p in files && l.owned(p) ==> exists k :: k in keys && l.path(k) == p
  }

  ghost predicate EachOk<K, P, D, M, T>(l: Layout<K, P>, ok: (K, D, M, T) -> bool,
                                        files: map<P, D>, memory: map<K, M>, tracks: map<K, T>)
  {
    forall k :: k in tracks ==>
                  k in memory && l.path(k) in files && ok(k, files[l.path(k)], memory[k], tracks[k])
  }

  ghost predicate Tied<K, P, D, M, T>(l: Layout<K, P>, ok: (K, D, M, T) -> bool,
                                      files: map<P, D>, memory: map<K, M>, tracks: map<K, T>)
  {
    && tracks.Keys == memory.Keys
    && EachOk(l, ok, files, memory, tracks)
    && Apart(l, memory.Keys)
    && NoStray(l, files, memory.Keys)
  }

  /** A key with a file of its own joins, or the two entries of a key change together. */
  lemma Put<K, P, D, M, T>(l: Layout<K, P>, ok: (K, D, M, T) -> bool,
                           files: map<P, D>, memory: map<K, M>, tracks: map<K, T>,
                           k: K, d: D, m: M, t: T)
    requires Tied(l, ok, files, memory, tracks)
    requires forall j :: j in memory && j != k ==> l.path(j) != l.path(k)
    requires ok(k, d, m, t)
    ensures Tied(l, ok, files[l.path(k) := d], memory[k := m], tracks[k := t])
  {
    var files', keys := files[l.path(k) := d], memory[k := m].Keys;
    forall p | p in files' && l.owned(p) ensures exists j :: j in keys && l.path(j) == p {
      if p == l.path(k) {
        assert k in keys;
      } else {
        var j :| j in memory.Keys && l.path(j) == p;
        assert j in keys;
      }
    }
  }

  lemma Remove<K, P, D, M, T>(l: Layout<K, P>, ok: (K, D, M, T) -> bool,
                              files: map<P, D>, memory: map<K, M>, tracks: map<K, T>, k: K)
    requires Tied(l, ok, files, memory, tracks)
    requires forall j :: j in memory && j != k ==> l.path(j) != l.path(k)
    ensures Tied(l, ok, files - {l.path(k)}, memory - {k}, tracks - {k})
  {
    var files', keys := files - {l.path(k)}, (memory - {k}).Keys;
    forall p | p in files' && l.owned(p) ensures exists j :: j in keys && l.path(j) == p {
      var j :| j in memory.Keys && l.path(j) == p;
      assert j in keys;
    }
  }

  /** Files no key owns do not matter. */
  lemma Unowned<K(!new), P(!new), D, M, T>(l: Layout<K, P>, ok: (K, D, M, T) -> bool,
                                           files: map<P, D>, files': map<P, D>,
                                           memory: map<K, M>, tracks: map<K, T>)
    requires Tied(l, ok, files, memory, tracks) && PathsOwned(l)
    requires forall p :: l.owned(p) ==>
                           (p in files' <==> p in files) && (p in files ==> files'[p] == files[p])
    ensures Tied(l, ok, files', memory, tracks)
  {
    forall p | p in files' && l.owned(p) ensures exists k :: k in memory.Keys && l.path(k) == p {
      assert p in files;
    }
  }

  /** One file that no key owns comes, goes or changes. */
  lemma UnownedAt<K(!new), P(!new), D, M, T>(l: Layout<K, P>, ok: (K, D, M, T) -> bool,
                                             files: map<P, D>, files': map<P, D>, q: P,
                                             memory: map<K, M>, tracks: map<K, T>)
    requires Tied(l, ok, files, memory, tracks) && PathsOwned(l) && !l.owned(q)
    requires files' - {q} == files - {q}
    ensures Tied(l, ok, files', memory, tracks)
  {
    forall p | l.owned(p) ensures (p in files' <==> p in files) && (p in files ==> files'[p] == files[p]) {
      assert p in files' - {q} <==> p in files - {q};
      if p in files { assert (files' - {q})[p] == (files - {q})[p]; }
    }
    Unowned(l, ok, files, files', memory, tracks);
  }

  /** The memory is replaced key by key. */
  lemma Replace<K, P, D, M, T>(l: Layout<K, P>, ok: (K, D, M, T) -> bool, files: map<P, D>,
                               memory: map<K, M>, tracks: map<K, T>, memory': map<K, M>, tracks': map<K, T>)
    requires Tied(l, ok, files, memory, tracks)
    requires memory'.Keys == tracks'.Keys == memory.Keys
    requires forall k :: k in tracks && ok(k, files[l.path(k)], memory[k], tracks[k]) ==>
                           ok(k, files[l.path(k)], memory'[k], tracks'[k])
    ensures Tied(l, ok, files, memory', tracks')
  {
  }
}
