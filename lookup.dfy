/** What an OWNERS lookup means, stated without any cache, and what a lookup
    through the cache costs and writes. Both resolver classes are proved against
    these functions. */
module Lookup {
  import opened Paths
  import opened Ownership
  import Text

  /** The repository at the pull request's reference: OWNERS path to decoded text.
      A path that is absent is a request that fails. */
  type Repo = map<string, string>

  /** Index of the first directory in dirs whose OWNERS file the repository holds,
      or |dirs| when there is none: the nearest declaration wins. */
  function FirstPresent(repo: Repo, dirs: seq<string>): (i: nat)
    ensures i <= |dirs|
    ensures forall j :: 0 <= j < i ==> OwnersPath(dirs[j]) !in repo
    ensures i < |dirs| ==> OwnersPath(dirs[i]) in repo
  {
    if dirs == [] then 0
    else if OwnersPath(dirs[0]) in repo then 0
    else 1 + FirstPresent(repo, dirs[1..])
  }

  /** The OWNERS file that governs directory d: the one in d or in its nearest
      ancestor that has one, or None when no directory up to the root has one. */
  function NearestOwnersFile(repo: Repo, d: string): (f: Option<string>)
    ensures f.Some? ==> f.value in repo
  {
    Pick(repo, DirChain(d))
  }

  /** The OWNERS file of the first directory in dirs that has one. */
  function Pick(repo: Repo, dirs: seq<string>): (f: Option<string>)
    ensures f.Some? ==> f.value in repo
  {
    var i := FirstPresent(repo, dirs);
    if i < |dirs| then Some(OwnersPath(dirs[i])) else None
  }

  /** Owners of a file, looked up with no cache: the nearest OWNERS file from the
      file's directory upward decides; an empty or missing declaration means anyone. */
  function Resolve(repo: Repo, file: string): (r: OwnersResult)
    ensures r.owners.List? ==> OwnersPath(r.path) in repo && r.owners.list != [] && r.owners.list == ParseOwners(repo[OwnersPath(r.path)])
    ensures r.path in DirChain(Dirname(file))
    ensures r.path == "." || OwnersPath(r.path) in repo
  {
    var c := DirChain(Dirname(file));
    var i := FirstPresent(repo, c);
    if i == |c| then OwnersResult(Anyone, ".")
    else
      var owners := ParseOwners(repo[OwnersPath(c[i])]);
      OwnersResult(if owners == [] then Anyone else List(owners), c[i])
  }

  /** The cache entry that a lookup from directory d leaves, for a resolver that
      stores read(text, file) for the nearest OWNERS file, and missing when no
      directory up to the root has one. */
  function Found<V>(repo: Repo, d: string, read: (string, string) -> V, missing: V): V
  {
    match NearestOwnersFile(repo, d)
    case Some(f) => read(repo[f], f)
    case None => missing
  }

  /** What src/OwnersManager.ts stores for an OWNERS file: the parsed owners and the file. */
  function Parsed(text: string, file: string): OwnersData
  {
    OwnersData(ParseOwners(text), file)
  }

  /** What index.js stores for an OWNERS file: its bare lines. */
  function Lines(text: string, file: string): seq<string>
  {
    Text.Split(text, '\n')
  }

  /** The entry of src/OwnersManager.ts: the nearest OWNERS file's parsed owners and
      path, or the empty list at the root OWNERS. */
  function Governing(repo: Repo, d: string): (g: OwnersData)
    ensures NearestOwnersFile(repo, d).Some? ==> g.path == NearestOwnersFile(repo, d).value
    ensures NearestOwnersFile(repo, d).None? ==> g == OwnersData([], OwnersFile)
  {
    Found(repo, d, Parsed, OwnersData([], OwnersFile))
  }

  /** Index in dirs at which a lookup through the cache stops: the first directory
      whose OWNERS path is cached or held by the repository, or |dirs|. */
  function StopAt(repo: Repo, cached: set<string>, dirs: seq<string>): (i: nat)
    ensures i <= |dirs|
    ensures forall j :: 0 <= j < i ==> OwnersPath(dirs[j]) !in cached && OwnersPath(dirs[j]) !in repo
    ensures i < |dirs| ==> OwnersPath(dirs[i]) in cached || OwnersPath(dirs[i]) in repo
  {
    if dirs == [] then 0
    else if OwnersPath(dirs[0]) in cached || OwnersPath(dirs[0]) in repo then 0
    else 1 + StopAt(repo, cached, dirs[1..])
  }

  /** The OWNERS paths of dirs up to and including the first one equal to found. */
  function KeysUpTo(dirs: seq<string>, found: string): set<string>
  {
    if dirs == [] then {}
    else {OwnersPath(dirs[0])} + (if OwnersPath(dirs[0]) == found then {} else KeysUpTo(dirs[1..], found))
  }

  /** Whether a lookup of file is answered by a cache entry. */
  predicate CacheHit(repo: Repo, cached: set<string>, file: string)
  {
    var c := DirChain(Dirname(file));
    var i := StopAt(repo, cached, c);
    i < |c| && OwnersPath(c[i]) in cached
  }

  /** Number of requests a lookup of file makes: one per directory tried that was
      not cached, the last one included unless the cache answered. */
  function FetchCost(repo: Repo, cached: set<string>, file: string): nat
  {
    var c := DirChain(Dirname(file));
    var i := StopAt(repo, cached, c);
    if CacheHit(repo, cached, file) then i else if i < |c| then i + 1 else |c|
  }

  /** The OWNERS paths a lookup of file writes into the cache: none when the cache
      answered, else those of every directory from the file's up to the one whose
      request succeeded, or up to the root when every request failed. */
  function Filled(repo: Repo, cached: set<string>, file: string): set<string>
  {
    PrefixKeys(DirChain(Dirname(file)), FilledCount(repo, cached, file))
  }

  /** How many directories of the chain a lookup of file back-fills. */
  function FilledCount(repo: Repo, cached: set<string>, file: string): (n: nat)
    ensures n <= |DirChain(Dirname(file))|
  {
    var c := DirChain(Dirname(file));
    var i := StopAt(repo, cached, c);
    if CacheHit(repo, cached, file) then 0 else if i < |c| then i + 1 else |c|
  }

  /** The OWNERS paths of the first n directories of dirs. */
  function PrefixKeys(dirs: seq<string>, n: nat): set<string>
    requires n <= |dirs|
  {
    set j | 0 <= j < n :: OwnersPath(dirs[j])
  }

  /** The cache entries a back-fill writes: every key given, mapped to one value. */
  function Fill<V>(keys: set<string>, v: V): (m: map<string, V>)
    ensures m.Keys == keys
    ensures forall k :: k in m ==> m[k] == v
  {
    map k | k in keys :: v
  }

  /** FirstPresent is determined by its contract. */
  lemma FirstPresentUnique(repo: Repo, dirs: seq<string>, i: nat)
    requires i <= |dirs|
    requires forall j :: 0 <= j < i ==> OwnersPath(dirs[j]) !in repo
    requires i < |dirs| ==> OwnersPath(dirs[i]) in repo
    ensures FirstPresent(repo, dirs) == i
  {
  }

  /** Dropping directories without an OWNERS file keeps the nearest one. */
  lemma {:induction false} PickDrop(repo: Repo, dirs: seq<string>, j: nat)
    requires j <= |dirs|
    requires forall l :: 0 <= l < j ==> OwnersPath(dirs[l]) !in repo
    ensures Pick(repo, dirs[j..]) == Pick(repo, dirs)
  {
    if j > 0 {
      PickDrop(repo, dirs[1..], j - 1);
      assert dirs[1..][j - 1..] == dirs[j..];
      PickTail(repo, dirs);
    }
  }

  lemma PickTail(repo: Repo, dirs: seq<string>)
    requires dirs != [] && OwnersPath(dirs[0]) !in repo
    ensures Pick(repo, dirs[1..]) == Pick(repo, dirs)
  {
    var i := FirstPresent(repo, dirs[1..]);
    if i < |dirs| - 1 {
      assert dirs[1..][i] == dirs[i + 1];
    }
  }

  /** Starting the search at an ancestor that lies above only directories without
      an OWNERS file finds the same governing file. */
  lemma NearestFromAncestor(repo: Repo, d: string, j: nat)
    requires j < |DirChain(d)|
    requires forall l :: 0 <= l < j ==> OwnersPath(DirChain(d)[l]) !in repo
    ensures NearestOwnersFile(repo, DirChain(d)[j]) == NearestOwnersFile(repo, d)
  {
    ChainSuffix(d, j);
    PickDrop(repo, DirChain(d), j);
  }

  /** Where a walk through the cache stops decides the governing file: the
      directory at which it stops has the same one as the file's directory, and
      when it stops at a request that succeeds, that OWNERS file is the one. */
  lemma StopAtGoverns(repo: Repo, cached: set<string>, file: string)
    ensures var c := DirChain(Dirname(file));
      var i := StopAt(repo, cached, c);
      && (i < |c| ==> NearestOwnersFile(repo, c[i]) == NearestOwnersFile(repo, Dirname(file)))
      && (i < |c| && OwnersPath(c[i]) !in cached ==> NearestOwnersFile(repo, Dirname(file)) == Some(OwnersPath(c[i])))
      && (i == |c| ==> NearestOwnersFile(repo, Dirname(file)) == None)
  {
    var c := DirChain(Dirname(file));
    var i := StopAt(repo, cached, c);
    if i < |c| {
      NearestFromAncestor(repo, Dirname(file), i);
      if OwnersPath(c[i]) !in cached {
        FirstPresentUnique(repo, c, i);
      }
    } else {
      FirstPresentUnique(repo, c, i);
    }
  }

  /** The keys written by a back-fill up to the m-th directory are those of the
      directories 0..m, when no earlier directory shares the m-th's OWNERS path. */
  lemma {:induction false} KeysUpToPrefix(dirs: seq<string>, m: nat)
    requires m < |dirs|
    requires forall j :: 0 <= j < m ==> OwnersPath(dirs[j]) != OwnersPath(dirs[m])
    ensures KeysUpTo(dirs, OwnersPath(dirs[m])) == PrefixKeys(dirs, m + 1)
  {
    PrefixKeysCons(dirs, m + 1);
    if m > 0 {
      assert dirs[1..][m - 1] == dirs[m];
      KeysUpToPrefix(dirs[1..], m - 1);
    }
  }

  lemma PrefixKeysCons(dirs: seq<string>, n: nat)
    requires 0 < n <= |dirs|
    ensures PrefixKeys(dirs, n) == {OwnersPath(dirs[0])} + PrefixKeys(dirs[1..], n - 1)
  {
    var rest := PrefixKeys(dirs[1..], n - 1);
    forall k | k in rest ensures k in PrefixKeys(dirs, n) {
      var j :| 0 <= j < n - 1 && k == OwnersPath(dirs[1..][j]);
      assert k == OwnersPath(dirs[j + 1]);
    }
    forall j | 1 <= j < n ensures OwnersPath(dirs[j]) in rest {
      assert OwnersPath(dirs[j]) == OwnersPath(dirs[1..][j - 1]);
    }
  }

  /** The back-fill that the resolver performs after a request that succeeded
      (or after the root request failed) writes exactly the keys of Filled. */
  lemma BackFillIsFilled(repo: Repo, cached: set<string>, file: string)
    requires !CacheHit(repo, cached, file)
    ensures var c := DirChain(Dirname(file));
      var i := StopAt(repo, cached, c);
      KeysUpTo(c, if i < |c| then OwnersPath(c[i]) else OwnersFile) == Filled(repo, cached, file)
  {
    var c := DirChain(Dirname(file));
    var i := StopAt(repo, cached, c);
    if i < |c| {
      ChainKeysUpTo(Dirname(file), i);
    } else {
      BackFillAtRoot(Dirname(file));
    }
  }

  /** A walk that found no OWNERS file back-fills the whole chain. */
  lemma BackFillAtRoot(d: string)
    ensures KeysUpTo(DirChain(d), OwnersFile) == PrefixKeys(DirChain(d), |DirChain(d)|)
  {
    var c := DirChain(d);
    ChainKeysUpTo(d, |c| - 1);
    ChainEndsAtRoot(d);
  }

  /** Along a chain, the back-fill up to the m-th directory writes the keys of
      the directories 0..m. */
  lemma ChainKeysUpTo(d: string, m: nat)
    requires m < |DirChain(d)|
    ensures KeysUpTo(DirChain(d), OwnersPath(DirChain(d)[m])) == PrefixKeys(DirChain(d), m + 1)
  {
    var c := DirChain(d);
    forall j | 0 <= j < m ensures OwnersPath(c[j]) != OwnersPath(c[m]) {
      ChainKeysDistinct(d, j, m);
    }
    KeysUpToPrefix(c, m);
  }

  /** A lookup writes only keys that were not cached: the cache grows, no entry is overwritten. */
  lemma FilledIsFresh(repo: Repo, cached: set<string>, file: string)
    ensures Filled(repo, cached, file) !! cached
  {
    var c := DirChain(Dirname(file));
    var i := StopAt(repo, cached, c);
    forall k | k in Filled(repo, cached, file) ensures k !in cached {
      var j :| 0 <= j < |c| && j <= i && k == OwnersPath(c[j]);
      if j == i {
        assert !CacheHit(repo, cached, file);
      }
    }
  }

  /** Every key a lookup writes is the OWNERS path of a directory whose governing
      file is the file's own: the cache entries it adds are all correct. */
  lemma FilledShareGoverning(repo: Repo, cached: set<string>, file: string, k: string)
    requires k in Filled(repo, cached, file)
    ensures k == OwnersPath(Dirname(k))
    ensures NearestOwnersFile(repo, Dirname(k)) == NearestOwnersFile(repo, Dirname(file))
  {
    var c := DirChain(Dirname(file));
    var i := StopAt(repo, cached, c);
    var j :| 0 <= j < |c| && j <= i && k == OwnersPath(c[j]);
    DirnameOfOwnersPath(c[j]);
    NearestFromAncestor(repo, Dirname(file), j);
  }

  /** Memoisation: after a lookup that was not answered by the cache, any other
      file in the same directory is answered by the cache, with no request and no write. */
  lemma SameDirectoryIsFree(repo: Repo, cached: set<string>, f: string, g: string)
    requires Dirname(f) == Dirname(g)
    requires !CacheHit(repo, cached, f)
    ensures var after := cached + Filled(repo, cached, f);
      CacheHit(repo, after, g) && FetchCost(repo, after, g) == 0 && Filled(repo, after, g) == {}
  {
    var c := DirChain(Dirname(f));
    assert OwnersPath(c[0]) in Filled(repo, cached, f);
  }

  /** The cache-free lookup agrees with shaping the governing entry the way the
      resolver shapes what it found: an empty list means anyone, and the module is
      the directory of the OWNERS file. */
  lemma ResolveIsGoverning(repo: Repo, file: string)
    ensures var g := Governing(repo, Dirname(file));
      Resolve(repo, file) == if g.owners == [] then OwnersResult(Anyone, Dirname(g.path)) else OwnersResult(List(g.owners), Dirname(g.path))
  {
    var c := DirChain(Dirname(file));
    var i := FirstPresent(repo, c);
    if i < |c| {
      DirnameOfOwnersPath(c[i]);
    } else {
      DirnameOfOwnersPath(".");
    }
  }

  /** One step of the back-fill: when the directory's own OWNERS path is not the
      one found, the rest of the back-fill starts at its parent. */
  lemma KeysUpToStep(d: string, found: string)
    requires found in Keys(DirChain(d))
    requires found != OwnersPath(d)
    ensures d != "." && Height(Dirname(d)) < Height(d)
    ensures found in Keys(DirChain(Dirname(d)))
    ensures KeysUpTo(DirChain(d), found) == {OwnersPath(d)} + KeysUpTo(DirChain(Dirname(d)), found)
  {
    var c := DirChain(d);
    var j :| 0 <= j < |c| && Keys(c)[j] == found;
    assert j != 0;
    ChainCons(d);
    DirnameDescends(d);
    KeysConsDrop(d, DirChain(Dirname(d)), found);
  }

  lemma KeysConsDrop(x: string, rest: seq<string>, found: string)
    requires found in Keys([x] + rest) && found != OwnersPath(x)
    ensures found in Keys(rest)
    ensures KeysUpTo([x] + rest, found) == {OwnersPath(x)} + KeysUpTo(rest, found)
  {
    var c := [x] + rest;
    var j :| 0 <= j < |c| && Keys(c)[j] == found;
    assert c[j] == rest[j - 1];
    assert Keys(rest)[j - 1] == found;
    assert c[1..] == rest;
    KeysUpToCons(c, found);
  }

  lemma KeysUpToCons(dirs: seq<string>, found: string)
    requires dirs != [] && OwnersPath(dirs[0]) != found
    ensures KeysUpTo(dirs, found) == {OwnersPath(dirs[0])} + KeysUpTo(dirs[1..], found)
  {
  }

  /** Writing one entry and then back-filling is one back-fill over both keys. */
  lemma FillStep<V>(m: map<string, V>, k: string, keys: set<string>, v: V)
    ensures m[k := v] + Fill(keys, v) == m + Fill({k} + keys, v)
  {
  }
}
