/** The walk that both resolver classes perform, as a function of the cache before
    it: from a file's directory up to the root, one OWNERS file per directory,
    stopping at the first one that the cache or a request supplies, and
    back-filling the cache for every directory passed. The two resolvers differ
    only in what they store for an OWNERS file (read) and for a walk that finds
    none (missing). */
module Walk {
  import opened Paths
  import opened Ownership
  import opened Lookup

  /** Every cache entry is keyed by the OWNERS path of a directory and holds what
      a cache-free lookup from that directory finds. */
  ghost predicate ValidCache<V>(repo: Repo, read: (string, string) -> V, missing: V, cache: map<string, V>)
  {
    forall k :: k in cache ==> k == OwnersPath(Dirname(k)) && cache[k] == Found(repo, Dirname(k), read, missing)
  }

  /** dirs is a tail of chain: the directories a walk has still to try. */
  predicate IsSuffix(dirs: seq<string>, chain: seq<string>)
  {
    |dirs| <= |chain| && chain[|chain| - |dirs|..] == dirs
  }

  /** What a walk returns, leaves in the cache and costs in requests. */
  datatype Outcome<V> = Outcome(content: Option<V>, cache: map<string, V>, cost: nat)

  /** The walk from path's directory stays on the chain of origPath's: the OWNERS
      file it tries first is one of the chain's keys, and the walk from the
      parent directory is again a tail of the chain. */
  lemma TailStep(path: string, origPath: string)
    requires IsSuffix(DirChain(Dirname(path)), DirChain(Dirname(origPath)))
    ensures OwnersPath(Dirname(path)) in Keys(DirChain(Dirname(origPath)))
    ensures Dirname(path) != "." ==> IsSuffix(DirChain(Dirname(Dirname(path))), DirChain(Dirname(origPath)))
  {
    TailHead(DirChain(Dirname(path)), DirChain(Dirname(origPath)));
    if Dirname(path) != "." {
      DirnameDescends(Dirname(path));
      TailRest(DirChain(Dirname(path)), DirChain(Dirname(origPath)));
    }
  }

  lemma TailHead(dirs: seq<string>, chain: seq<string>)
    requires dirs != [] && IsSuffix(dirs, chain)
    ensures OwnersPath(dirs[0]) in Keys(chain)
  {
    assert OwnersPath(dirs[0]) == Keys(chain)[|chain| - |dirs|];
  }

  lemma TailRest(dirs: seq<string>, chain: seq<string>)
    requires dirs != [] && IsSuffix(dirs, chain)
    ensures IsSuffix(dirs[1..], chain)
  {
    assert chain[|chain| - |dirs| + 1..] == dirs[1..];
  }

  /** How one getFileContent call for key ends: answered by the cache with no
      request; or one request that succeeds, what is read from it back-filled
      along chain up to key; or one request that fails, writing nothing. */
  function FetchOutcome<V>(repo: Repo, read: (string, string) -> V, before: map<string, V>,
                           key: string, chain: seq<string>): Outcome<V>
  {
    if key in before then Outcome(Some(before[key]), before, 0)
    else if key in repo then
      var data := read(repo[key], key);
      Outcome(Some(data), before + Fill(KeysUpTo(chain, key), data), 1)
    else Outcome(None, before, 1)
  }

  /** How a walk over the directories dirs (a tail of the chain of the file's
      directory) ends: the first directory whose OWNERS file the cache or a
      request supplies ends it; each directory before it costs one failed
      request; when even the root request fails, the walk gives None and the
      whole chain is back-filled with missing. */
  function WalkOutcome<V>(repo: Repo, read: (string, string) -> V, missing: V, before: map<string, V>,
                          dirs: seq<string>, chain: seq<string>): Outcome<V>
    decreases |dirs|
  {
    if dirs == [] then Outcome(None, before + Fill(KeysUpTo(chain, OwnersFile), missing), 0)
    else
      var key := OwnersPath(dirs[0]);
      if key in before || key in repo then FetchOutcome(repo, read, before, key, chain)
      else
        var o := WalkOutcome(repo, read, missing, before, dirs[1..], chain);
        o.(cost := o.cost + 1)
  }

  /** One step of the walk from a directory below the root: its own OWNERS file,
      else one failed request and the walk from its parent. */
  lemma WalkStep<V>(repo: Repo, read: (string, string) -> V, missing: V, before: map<string, V>,
                    d: string, chain: seq<string>)
    requires d != "."
    ensures var key := OwnersPath(d);
      var w := WalkOutcome(repo, read, missing, before, DirChain(d), chain);
      var o := WalkOutcome(repo, read, missing, before, DirChain(Dirname(d)), chain);
      var f := FetchOutcome(repo, read, before, key, chain);
      && (key in before || key in repo ==> w.content == f.content && w.cache == f.cache && w.cost == f.cost)
      && (key !in before && key !in repo ==> w.content == o.content && w.cache == o.cache && w.cost == o.cost + 1)
  {
    var dirs := DirChain(d);
    DirnameDescends(d);
    assert dirs[1..] == DirChain(Dirname(d));
  }

  /** The walk from the root: the root OWNERS file, else one failed request and None. */
  lemma WalkRoot<V>(repo: Repo, read: (string, string) -> V, missing: V, before: map<string, V>, chain: seq<string>)
    ensures var w := WalkOutcome(repo, read, missing, before, DirChain("."), chain);
      var f := FetchOutcome(repo, read, before, OwnersFile, chain);
      && (OwnersFile in before || OwnersFile in repo ==> w.content == f.content && w.cache == f.cache && w.cost == f.cost)
      && (OwnersFile !in before && OwnersFile !in repo ==>
            w.content == None && w.cache == before + Fill(KeysUpTo(chain, OwnersFile), missing) && w.cost == 1)
  {
    assert DirChain(".")[1..] == [];
  }

  /** The walk ends where StopAt says, after one failed request per directory before it. */
  lemma {:induction false} WalkStops<V>(repo: Repo, read: (string, string) -> V, missing: V, before: map<string, V>,
                                        dirs: seq<string>, chain: seq<string>)
    ensures var i := StopAt(repo, before.Keys, dirs);
      var w := WalkOutcome(repo, read, missing, before, dirs, chain);
      && (i < |dirs| ==> var f := FetchOutcome(repo, read, before, OwnersPath(dirs[i]), chain);
            w.content == f.content && w.cache == f.cache && w.cost == i + f.cost)
      && (i == |dirs| ==>
            w.content == None && w.cache == before + Fill(KeysUpTo(chain, OwnersFile), missing) && w.cost == |dirs|)
    decreases |dirs|
  {
    if dirs != [] && OwnersPath(dirs[0]) !in before && OwnersPath(dirs[0]) !in repo {
      WalkStops(repo, read, missing, before, dirs[1..], chain);
      var i := StopAt(repo, before.Keys, dirs[1..]);
      assert StopAt(repo, before.Keys, dirs) == i + 1;
      if i < |dirs| - 1 {
        assert dirs[1..][i] == dirs[i + 1];
      }
    }
  }

  /** The walk from a file's directory, through a valid cache, finds the entry of
      that directory's nearest OWNERS file (None only when no directory up to the
      root has one), costs FetchCost requests and adds the Filled keys, each
      mapped to that entry. */
  lemma WalkOfFile<V>(repo: Repo, read: (string, string) -> V, missing: V, before: map<string, V>, file: string)
    requires ValidCache(repo, read, missing, before)
    ensures var c := DirChain(Dirname(file));
      var o := WalkOutcome(repo, read, missing, before, c, c);
      var g := Found(repo, Dirname(file), read, missing);
      && o.cost == FetchCost(repo, before.Keys, file)
      && o.cache == before + Fill(Filled(repo, before.Keys, file), g)
      && (o.content.Some? ==> o.content.value == g)
      && (o.content.None? ==> NearestOwnersFile(repo, Dirname(file)).None? && g == missing)
  {
    if CacheHit(repo, before.Keys, file) {
      WalkOfFileHit(repo, read, missing, before, file);
    } else {
      WalkOfFileMiss(repo, read, missing, before, file);
    }
  }

  lemma WalkOfFileHit<V>(repo: Repo, read: (string, string) -> V, missing: V, before: map<string, V>, file: string)
    requires ValidCache(repo, read, missing, before)
    requires CacheHit(repo, before.Keys, file)
    ensures var c := DirChain(Dirname(file));
      var o := WalkOutcome(repo, read, missing, before, c, c);
      var g := Found(repo, Dirname(file), read, missing);
      o.content == Some(g) && o.cost == FetchCost(repo, before.Keys, file) && o.cache == before + Fill(Filled(repo, before.Keys, file), g)
  {
    var c := DirChain(Dirname(file));
    WalkHit(repo, read, missing, before, c, c);
    HitIsFound(repo, read, missing, before, file);
    FillNothing(before, Found(repo, Dirname(file), read, missing));
  }

  /** A walk that reaches a cached OWNERS path returns its entry, writes nothing and
      costs one failed request per directory before it. */
  lemma WalkHit<V>(repo: Repo, read: (string, string) -> V, missing: V, before: map<string, V>,
                   dirs: seq<string>, chain: seq<string>)
    requires StopAt(repo, before.Keys, dirs) < |dirs|
    requires OwnersPath(dirs[StopAt(repo, before.Keys, dirs)]) in before
    ensures var i := StopAt(repo, before.Keys, dirs);
      var o := WalkOutcome(repo, read, missing, before, dirs, chain);
      o.content == Some(before[OwnersPath(dirs[i])]) && o.cache == before && o.cost == i
  {
    WalkStops(repo, read, missing, before, dirs, chain);
  }

  lemma FillNothing<V>(m: map<string, V>, v: V)
    ensures m + Fill({}, v) == m
  {
    assert Fill({}, v) == map[];
  }

  lemma WalkOfFileMiss<V>(repo: Repo, read: (string, string) -> V, missing: V, before: map<string, V>, file: string)
    requires !CacheHit(repo, before.Keys, file)
    ensures var c := DirChain(Dirname(file));
      var o := WalkOutcome(repo, read, missing, before, c, c);
      var g := Found(repo, Dirname(file), read, missing);
      && o.cost == FetchCost(repo, before.Keys, file)
      && o.cache == before + Fill(Filled(repo, before.Keys, file), g)
      && (o.content.Some? ==> o.content.value == g)
      && (o.content.None? ==> NearestOwnersFile(repo, Dirname(file)).None? && g == missing)
  {
    var c := DirChain(Dirname(file));
    var i := StopAt(repo, before.Keys, c);
    var o := WalkOutcome(repo, read, missing, before, c, c);
    var g := Found(repo, Dirname(file), read, missing);
    WalkStops(repo, read, missing, before, c, c);
    StopAtGoverns(repo, before.Keys, file);
    BackFillIsFilled(repo, before.Keys, file);
    var f := if i < |c| then OwnersPath(c[i]) else OwnersFile;
    var v := if i < |c| then read(repo[f], f) else missing;
    assert v == g;
    assert o.cache == before + Fill(KeysUpTo(c, f), v);
  }

  /** A cache hit during the walk returns the entry of the file's own directory. */
  lemma HitIsFound<V>(repo: Repo, read: (string, string) -> V, missing: V, before: map<string, V>, file: string)
    requires ValidCache(repo, read, missing, before)
    requires CacheHit(repo, before.Keys, file)
    ensures var c := DirChain(Dirname(file));
      var k := OwnersPath(c[StopAt(repo, before.Keys, c)]);
      k in before && before[k] == Found(repo, Dirname(file), read, missing)
    ensures Filled(repo, before.Keys, file) == {}
  {
    var c := DirChain(Dirname(file));
    var i := StopAt(repo, before.Keys, c);
    DirnameOfOwnersPath(c[i]);
    StopAtGoverns(repo, before.Keys, file);
  }

  /** Adding the entries of a lookup keeps every cache entry correct. */
  lemma FillKeepsValid<V>(repo: Repo, read: (string, string) -> V, missing: V, before: map<string, V>, file: string)
    requires ValidCache(repo, read, missing, before)
    ensures ValidCache(repo, read, missing, before + Fill(Filled(repo, before.Keys, file), Found(repo, Dirname(file), read, missing)))
  {
    var after := before + Fill(Filled(repo, before.Keys, file), Found(repo, Dirname(file), read, missing));
    forall k | k in after ensures k == OwnersPath(Dirname(k)) && after[k] == Found(repo, Dirname(k), read, missing) {
      if k in Filled(repo, before.Keys, file) {
        FilledShareGoverning(repo, before.Keys, file, k);
      }
    }
  }
}
