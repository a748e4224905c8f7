/** The resolver tests of test/index.test.js, stated for any repository with the
    same layout: which OWNERS file answers each lookup and how many requests the
    whole sequence of lookups makes. Directory and file names are parameters, tied
    together only by Dirname. */
module Scenarios {
  import opened Paths
  import opened Ownership
  import opened Lookup
  import opened Text
  import LegacyResolver

  /** The cached OWNERS paths after a lookup of f through a cache holding cached. */
  function After(repo: Repo, cached: set<string>, f: string): set<string>
  {
    cached + Filled(repo, cached, f)
  }

  /** d is a directory just below the root. */
  predicate TopLevel(d: string)
  {
    d != "." && Dirname(d) == "."
  }

  /** d is a directory just below the top-level directory a. */
  predicate SecondLevel(d: string, a: string)
  {
    TopLevel(a) && d != "." && Dirname(d) == a
  }

  lemma ChainOfTop(a: string)
    requires TopLevel(a)
    ensures DirChain(a) == [a, "."]
  {
  }

  lemma ChainOfSecond(d: string, a: string)
    requires SecondLevel(d, a)
    ensures DirChain(d) == [d, a, "."]
  {
    ChainOfTop(a);
  }

  lemma DistinctDirs(d: string, e: string)
    requires d != e
    ensures OwnersPath(d) != OwnersPath(e)
  {
    if OwnersPath(d) == OwnersPath(e) {
      OwnersPathInjective(d, e);
    }
  }

  /** A sibling directory below a has an OWNERS path of its own. */
  lemma SiblingKey(e2: string, e1: string, a: string)
    requires SecondLevel(e1, a) && SecondLevel(e2, a) && e1 != e2
    ensures OwnersPath(e2) !in {OwnersPath(e1), OwnersPath(a), OwnersFile}
  {
    DistinctDirs(e2, e1);
    DistinctDirs(e2, a);
    DistinctDirs(e2, ".");
  }

  /** Another top-level directory has an OWNERS path of its own. */
  lemma OtherTopKey(b: string, a: string, e1: string)
    requires TopLevel(b) && SecondLevel(e1, a) && a != b
    ensures OwnersPath(b) !in {OwnersPath(e1), OwnersPath(a), OwnersFile}
  {
    DistinctDirs(b, e1);
    DistinctDirs(b, a);
    DistinctDirs(b, ".");
  }

  /** A lookup of a file in the root directory: free when the root OWNERS path is
      cached, else one request; either way the root OWNERS path ends up cached. */
  lemma LookupInRoot(repo: Repo, cached: set<string>, f: string)
    requires Dirname(f) == "."
    ensures FetchCost(repo, cached, f) == if OwnersFile in cached then 0 else 1
    ensures After(repo, cached, f) == cached + {OwnersFile}
  {
    assert DirChain(".") == ["."];
  }

  /** A lookup of a file in the top-level directory a: its own OWNERS path, then
      the root's; a cache hit ends the walk and writes nothing. */
  lemma LookupInTop(repo: Repo, cached: set<string>, f: string, a: string)
    requires Dirname(f) == a && TopLevel(a)
    ensures FetchCost(repo, cached, f) ==
      if OwnersPath(a) in cached then 0
      else if OwnersPath(a) in repo then 1
      else if OwnersFile in cached then 1
      else 2
    ensures After(repo, cached, f) ==
      if OwnersPath(a) in cached then cached
      else if OwnersPath(a) in repo then cached + {OwnersPath(a)}
      else if OwnersFile in cached then cached
      else cached + {OwnersPath(a), OwnersFile}
  {
    ChainOfTop(a);
  }

  /** The OWNERS file that governs a file in the top-level directory a. */
  lemma NearestInTop(repo: Repo, f: string, a: string)
    requires Dirname(f) == a && TopLevel(a)
    ensures NearestOwnersFile(repo, Dirname(f)) ==
      if OwnersPath(a) in repo then Some(OwnersPath(a))
      else if OwnersFile in repo then Some(OwnersFile)
      else None
  {
    ChainOfTop(a);
  }

  /** A lookup of a file in the second-level directory d below a: d's OWNERS path,
      then a's, then the root's. */
  lemma LookupInSecond(repo: Repo, cached: set<string>, f: string, d: string, a: string)
    requires Dirname(f) == d && SecondLevel(d, a)
    ensures FetchCost(repo, cached, f) ==
      if OwnersPath(d) in cached then 0
      else if OwnersPath(d) in repo then 1
      else if OwnersPath(a) in cached then 1
      else if OwnersPath(a) in repo then 2
      else if OwnersFile in cached then 2
      else 3
    ensures After(repo, cached, f) ==
      if OwnersPath(d) in cached then cached
      else if OwnersPath(d) in repo then cached + {OwnersPath(d)}
      else if OwnersPath(a) in cached then cached
      else if OwnersPath(a) in repo then cached + {OwnersPath(d), OwnersPath(a)}
      else if OwnersFile in cached then cached
      else cached + {OwnersPath(d), OwnersPath(a), OwnersFile}
  {
    ChainOfSecond(d, a);
  }

  /** The OWNERS file that governs a file in the second-level directory d below a. */
  lemma NearestInSecond(repo: Repo, f: string, d: string, a: string)
    requires Dirname(f) == d && SecondLevel(d, a)
    ensures NearestOwnersFile(repo, Dirname(f)) ==
      if OwnersPath(d) in repo then Some(OwnersPath(d))
      else if OwnersPath(a) in repo then Some(OwnersPath(a))
      else if OwnersFile in repo then Some(OwnersFile)
      else None
  {
    ChainOfSecond(d, a);
  }

  /** "Two file in the root directory": one request, for the root OWNERS file. */
  lemma TwoFilesInRootCost(repo: Repo, f1: string, f2: string)
    requires Dirname(f1) == "." && Dirname(f2) == "."
    ensures FetchCost(repo, {}, f1) == 1 && FetchCost(repo, After(repo, {}, f1), f2) == 0
  {
    LookupInRoot(repo, {}, f1);
    LookupInRoot(repo, After(repo, {}, f1), f2);
  }

  /** "Two file in a nested directory": one request, for a's OWNERS file. */
  lemma TwoFilesInNestedDirectoryCost(repo: Repo, a: string, f1: string, f2: string)
    requires TopLevel(a) && Dirname(f1) == a && Dirname(f2) == a
    requires OwnersPath(a) in repo
    ensures FetchCost(repo, {}, f1) == 1 && FetchCost(repo, After(repo, {}, f1), f2) == 0
  {
    LookupInTop(repo, {}, f1, a);
    LookupInTop(repo, After(repo, {}, f1), f2, a);
  }

  /** The files of the tests' deeper scenarios: f1 and f2 in e1, f3 in e2 (two
      sibling directories below the top-level directory a) and f4 in a itself. */
  predicate FourFiles(a: string, e1: string, e2: string, f1: string, f2: string, f3: string, f4: string)
  {
    && SecondLevel(e1, a) && SecondLevel(e2, a) && e1 != e2
    && Dirname(f1) == e1 && Dirname(f2) == e1 && Dirname(f3) == e2 && Dirname(f4) == a
  }

  /** FourFiles, and f5 in a second top-level directory b. */
  predicate FiveFiles(a: string, b: string, e1: string, e2: string, f1: string, f2: string, f3: string, f4: string, f5: string)
  {
    FourFiles(a, e1, e2, f1, f2, f3, f4) && TopLevel(b) && a != b && Dirname(f5) == b
  }

  /** Four files below a, none of whose directories has an OWNERS file: the first
      lookup walks to the root and caches all three OWNERS paths of its walk
      (whether or not the root has one), the sibling e2 costs one failed request,
      and the other two are answered by the cache. */
  lemma FourFilesLookups(repo: Repo, a: string, e1: string, e2: string,
                         f1: string, f2: string, f3: string, f4: string)
    requires FourFiles(a, e1, e2, f1, f2, f3, f4)
    requires OwnersPath(a) !in repo && OwnersPath(e1) !in repo && OwnersPath(e2) !in repo
    ensures var k1 := {OwnersPath(e1), OwnersPath(a), OwnersFile};
      && FetchCost(repo, {}, f1) == 3 && After(repo, {}, f1) == k1
      && FetchCost(repo, k1, f2) == 0 && After(repo, k1, f2) == k1
      && FetchCost(repo, k1, f3) == 1 && After(repo, k1, f3) == k1
      && FetchCost(repo, k1, f4) == 0 && After(repo, k1, f4) == k1
  {
    var k1 := {OwnersPath(e1), OwnersPath(a), OwnersFile};
    assert OwnersPath(e1) in k1 && OwnersPath(a) in k1 && OwnersFile in k1;
    assert FetchCost(repo, {}, f1) == 3 && After(repo, {}, f1) == k1 by {
      LookupInSecond(repo, {}, f1, e1, a);
    }
    assert FetchCost(repo, k1, f2) == 0 && After(repo, k1, f2) == k1 by {
      LookupInSecond(repo, k1, f2, e1, a);
    }
    SiblingKey(e2, e1, a);
    assert FetchCost(repo, k1, f3) == 1 && After(repo, k1, f3) == k1 by {
      LookupInSecond(repo, k1, f3, e2, a);
    }
    LookupInTop(repo, k1, f4, a);
  }

  /** "No owners in the current directory": the root OWNERS file answers all four
      files; three requests for the first file, then one failed request for the
      sibling directory e2, whose parent a is cached. */
  lemma NoOwnersInCurrentDirectoryLookups(repo: Repo, a: string, e1: string, e2: string,
                                          f1: string, f2: string, f3: string, f4: string)
    requires FourFiles(a, e1, e2, f1, f2, f3, f4)
    requires OwnersFile in repo && OwnersPath(a) !in repo && OwnersPath(e1) !in repo && OwnersPath(e2) !in repo
    ensures var k1 := After(repo, {}, f1);
      var k2 := After(repo, k1, f2);
      var k3 := After(repo, k2, f3);
      FetchCost(repo, {}, f1) == 3 && FetchCost(repo, k1, f2) == 0 && FetchCost(repo, k2, f3) == 1 && FetchCost(repo, k3, f4) == 0
    ensures NearestOwnersFile(repo, e1) == Some(OwnersFile) && NearestOwnersFile(repo, e2) == Some(OwnersFile)
      && NearestOwnersFile(repo, a) == Some(OwnersFile)
  {
    FourFilesLookups(repo, a, e1, e2, f1, f2, f3, f4);
    NearestInSecond(repo, f1, e1, a);
    NearestInSecond(repo, f3, e2, a);
    NearestInTop(repo, f4, a);
  }

  /** The first four lookups of "maybe owners in the current directory": the walk
      from f1 stops at a, which has an OWNERS file, the sibling e2 costs one failed
      request, and the other two are answered by the cache. */
  lemma FoundInALookups(repo: Repo, a: string, e1: string, e2: string,
                        f1: string, f2: string, f3: string, f4: string)
    requires FourFiles(a, e1, e2, f1, f2, f3, f4)
    requires OwnersPath(a) in repo && OwnersPath(e1) !in repo && OwnersPath(e2) !in repo
    ensures var k1 := {OwnersPath(e1), OwnersPath(a)};
      && FetchCost(repo, {}, f1) == 2 && After(repo, {}, f1) == k1
      && FetchCost(repo, k1, f2) == 0 && After(repo, k1, f2) == k1
      && FetchCost(repo, k1, f3) == 1 && After(repo, k1, f3) == k1
      && FetchCost(repo, k1, f4) == 0 && After(repo, k1, f4) == k1
  {
    var k1 := {OwnersPath(e1), OwnersPath(a)};
    assert OwnersPath(e1) in k1 && OwnersPath(a) in k1;
    assert FetchCost(repo, {}, f1) == 2 && After(repo, {}, f1) == k1 by {
      LookupInSecond(repo, {}, f1, e1, a);
    }
    assert FetchCost(repo, k1, f2) == 0 && After(repo, k1, f2) == k1 by {
      LookupInSecond(repo, k1, f2, e1, a);
    }
    SiblingKey(e2, e1, a);
    assert FetchCost(repo, k1, f3) == 1 && After(repo, k1, f3) == k1 by {
      LookupInSecond(repo, k1, f3, e2, a);
    }
    LookupInTop(repo, k1, f4, a);
  }

  /** A file in a top-level directory without an OWNERS file, when the cache holds
      only the OWNERS paths of a walk below another top-level directory that
      stopped there: two requests. */
  lemma TopRootUncached(repo: Repo, a: string, e1: string, f: string, b: string)
    requires Dirname(f) == b && TopLevel(b) && SecondLevel(e1, a) && a != b
    requires OwnersPath(b) !in repo
    ensures FetchCost(repo, {OwnersPath(e1), OwnersPath(a)}, f) == 2
  {
    var k1 := {OwnersPath(e1), OwnersPath(a)};
    OtherTopKey(b, a, e1);
    DistinctDirs(e1, ".");
    DistinctDirs(a, ".");
    LookupInTop(repo, k1, f, b);
  }

  /** "Maybe owners in the current directory": a's OWNERS file answers the four
      files below a (two, zero, one and zero requests); the root's answers the file
      in b (two requests). */
  lemma MaybeOwnersInCurrentDirectoryLookups(repo: Repo, a: string, b: string, e1: string, e2: string,
                                             f1: string, f2: string, f3: string, f4: string, f5: string)
    requires FiveFiles(a, b, e1, e2, f1, f2, f3, f4, f5)
    requires OwnersFile in repo && OwnersPath(a) in repo
    requires OwnersPath(e1) !in repo && OwnersPath(e2) !in repo && OwnersPath(b) !in repo
    ensures var k1 := After(repo, {}, f1);
      var k2 := After(repo, k1, f2);
      var k3 := After(repo, k2, f3);
      var k4 := After(repo, k3, f4);
      && FetchCost(repo, {}, f1) == 2 && FetchCost(repo, k1, f2) == 0 && FetchCost(repo, k2, f3) == 1
      && FetchCost(repo, k3, f4) == 0 && FetchCost(repo, k4, f5) == 2
    ensures NearestOwnersFile(repo, e1) == Some(OwnersPath(a)) && NearestOwnersFile(repo, e2) == Some(OwnersPath(a))
      && NearestOwnersFile(repo, a) == Some(OwnersPath(a)) && NearestOwnersFile(repo, b) == Some(OwnersFile)
  {
    FoundInALookups(repo, a, e1, e2, f1, f2, f3, f4);
    TopRootUncached(repo, a, e1, f5, b);
    NearestInSecond(repo, f1, e1, a);
    NearestInSecond(repo, f3, e2, a);
    NearestInTop(repo, f4, a);
    NearestInTop(repo, f5, b);
  }

  /** "No owners at all": every request fails and no file has an OWNERS file; the
      first lookup caches the empty list for its whole walk, so the sibling e2 and
      b each cost one request. */
  lemma NoOwnersAtAllLookups(repo: Repo, a: string, b: string, e1: string, e2: string,
                             f1: string, f2: string, f3: string, f4: string, f5: string)
    requires FiveFiles(a, b, e1, e2, f1, f2, f3, f4, f5)
    requires OwnersFile !in repo && OwnersPath(a) !in repo
    requires OwnersPath(e1) !in repo && OwnersPath(e2) !in repo && OwnersPath(b) !in repo
    ensures var k1 := After(repo, {}, f1);
      var k2 := After(repo, k1, f2);
      var k3 := After(repo, k2, f3);
      var k4 := After(repo, k3, f4);
      && FetchCost(repo, {}, f1) == 3 && FetchCost(repo, k1, f2) == 0 && FetchCost(repo, k2, f3) == 1
      && FetchCost(repo, k3, f4) == 0 && FetchCost(repo, k4, f5) == 1
    ensures NearestOwnersFile(repo, e1) == None && NearestOwnersFile(repo, e2) == None
      && NearestOwnersFile(repo, a) == None && NearestOwnersFile(repo, b) == None
  {
    FourFilesLookups(repo, a, e1, e2, f1, f2, f3, f4);
    TopAfterRootCached(repo, a, e1, f5, b);
    NearestInSecond(repo, f1, e1, a);
    NearestInSecond(repo, f3, e2, a);
    NearestInTop(repo, f4, a);
    NearestInTop(repo, f5, b);
  }

  /** A file in a top-level directory without an OWNERS file, once the root's
      OWNERS path is cached by a walk from below another top-level directory: one
      failed request. */
  lemma TopAfterRootCached(repo: Repo, a: string, e1: string, f: string, b: string)
    requires Dirname(f) == b && TopLevel(b) && SecondLevel(e1, a) && a != b
    requires OwnersPath(b) !in repo
    ensures FetchCost(repo, {OwnersPath(e1), OwnersPath(a), OwnersFile}, f) == 1
  {
    var k1 := {OwnersPath(e1), OwnersPath(a), OwnersFile};
    OtherTopKey(b, a, e1);
    assert OwnersFile in k1;
    LookupInTop(repo, k1, f, b);
  }

  /** "A subdir has owners only": one request for the file in a, two failed ones for
      the file in b. */
  lemma SubdirHasOwnersOnlyCost(repo: Repo, a: string, b: string, f1: string, f2: string)
    requires TopLevel(a) && TopLevel(b) && a != b && Dirname(f1) == a && Dirname(f2) == b
    requires OwnersPath(a) in repo && OwnersPath(b) !in repo && OwnersFile !in repo
    ensures FetchCost(repo, {}, f1) == 1 && FetchCost(repo, After(repo, {}, f1), f2) == 2
  {
    DistinctDirs(b, a);
    LookupInTop(repo, {}, f1, a);
    var k1 := {OwnersPath(a)};
    assert After(repo, {}, f1) == k1;
    LookupInTop(repo, k1, f2, b);
  }

  /** The owners index.js reports for a file governed by the OWNERS file f. */
  function ListOf(repo: Repo, f: string): Owners
    requires f in repo
  {
    List(Split(repo[f], '\n'))
  }

  /** A file whose directory d is governed by the OWNERS file p gets p's lines. */
  lemma ResolvedBy(repo: Repo, f: string, d: string, p: string)
    requires Dirname(f) == d && NearestOwnersFile(repo, d) == Some(p)
    ensures p in repo && LegacyResolver.LegacyResolve(repo, f) == ListOf(repo, p)
  {
  }

  /** A file whose directory d has no OWNERS file up to the root may be approved
      by anyone. */
  lemma ResolvedByNone(repo: Repo, f: string, d: string)
    requires Dirname(f) == d && NearestOwnersFile(repo, d) == None
    ensures LegacyResolver.LegacyResolve(repo, f) == Anyone
  {
  }

  /** The owners index.js reports in "no owners in the current directory": the
      root OWNERS file's lines for all four files. */
  lemma NoOwnersInCurrentDirectoryOwners(repo: Repo, a: string, e1: string, e2: string,
                                         f1: string, f2: string, f3: string, f4: string)
    requires FourFiles(a, e1, e2, f1, f2, f3, f4)
    requires OwnersFile in repo && OwnersPath(a) !in repo && OwnersPath(e1) !in repo && OwnersPath(e2) !in repo
    ensures LegacyResolver.LegacyResolve(repo, f1) == ListOf(repo, OwnersFile)
    ensures LegacyResolver.LegacyResolve(repo, f2) == ListOf(repo, OwnersFile)
    ensures LegacyResolver.LegacyResolve(repo, f3) == ListOf(repo, OwnersFile)
    ensures LegacyResolver.LegacyResolve(repo, f4) == ListOf(repo, OwnersFile)
  {
    NearestInSecond(repo, f1, e1, a);
    NearestInSecond(repo, f3, e2, a);
    NearestInTop(repo, f4, a);
    ResolvedBy(repo, f1, e1, OwnersFile);
    ResolvedBy(repo, f2, e1, OwnersFile);
    ResolvedBy(repo, f3, e2, OwnersFile);
    ResolvedBy(repo, f4, a, OwnersFile);
  }

  /** The owners index.js reports in "maybe owners in the current directory": a's
      OWNERS file's lines for the files below a, the root's for the file in b. */
  lemma MaybeOwnersInCurrentDirectoryOwners(repo: Repo, a: string, b: string, e1: string, e2: string,
                                            f1: string, f2: string, f3: string, f4: string, f5: string)
    requires FiveFiles(a, b, e1, e2, f1, f2, f3, f4, f5)
    requires OwnersFile in repo && OwnersPath(a) in repo
    requires OwnersPath(e1) !in repo && OwnersPath(e2) !in repo && OwnersPath(b) !in repo
    ensures LegacyResolver.LegacyResolve(repo, f1) == ListOf(repo, OwnersPath(a))
    ensures LegacyResolver.LegacyResolve(repo, f2) == ListOf(repo, OwnersPath(a))
    ensures LegacyResolver.LegacyResolve(repo, f3) == ListOf(repo, OwnersPath(a))
    ensures LegacyResolver.LegacyResolve(repo, f4) == ListOf(repo, OwnersPath(a))
    ensures LegacyResolver.LegacyResolve(repo, f5) == ListOf(repo, OwnersFile)
  {
    NearestInSecond(repo, f1, e1, a);
    NearestInSecond(repo, f3, e2, a);
    NearestInTop(repo, f4, a);
    NearestInTop(repo, f5, b);
    ResolvedBy(repo, f1, e1, OwnersPath(a));
    ResolvedBy(repo, f2, e1, OwnersPath(a));
    ResolvedBy(repo, f3, e2, OwnersPath(a));
    ResolvedBy(repo, f4, a, OwnersPath(a));
    ResolvedBy(repo, f5, b, OwnersFile);
  }

  /** The owners index.js reports in "no owners at all": anyone, for all five files. */
  lemma NoOwnersAtAllOwners(repo: Repo, a: string, b: string, e1: string, e2: string,
                            f1: string, f2: string, f3: string, f4: string, f5: string)
    requires FiveFiles(a, b, e1, e2, f1, f2, f3, f4, f5)
    requires OwnersFile !in repo && OwnersPath(a) !in repo
    requires OwnersPath(e1) !in repo && OwnersPath(e2) !in repo && OwnersPath(b) !in repo
    ensures LegacyResolver.LegacyResolve(repo, f1) == Anyone && LegacyResolver.LegacyResolve(repo, f2) == Anyone
    ensures LegacyResolver.LegacyResolve(repo, f3) == Anyone && LegacyResolver.LegacyResolve(repo, f4) == Anyone
    ensures LegacyResolver.LegacyResolve(repo, f5) == Anyone
  {
    NearestInSecond(repo, f1, e1, a);
    NearestInSecond(repo, f3, e2, a);
    NearestInTop(repo, f4, a);
    NearestInTop(repo, f5, b);
    ResolvedByNone(repo, f1, e1);
    ResolvedByNone(repo, f2, e1);
    ResolvedByNone(repo, f3, e2);
    ResolvedByNone(repo, f4, a);
    ResolvedByNone(repo, f5, b);
  }

  /** One collectOwners call of a test, seen through the cached paths only. */
  method Collect(m: LegacyResolver.OwnersManager, f: string, ghost cached: set<string>) returns (r: Owners)
    requires m.Valid() && m.cache.Keys == cached
    modifies m`cache, m`requests
    ensures m.Valid()
    ensures r == LegacyResolver.LegacyResolve(m.repo, f)
    ensures m.cache.Keys == After(m.repo, cached, f)
    ensures m.requests == old(m.requests) + FetchCost(m.repo, cached, f)
  {
    r := m.CollectOwners(f);
  }

  /** A fresh resolver asked for the owners of f1 and f2, in that order. */
  method CollectTwo(repo: Repo, f1: string, f2: string) returns (r1: Owners, r2: Owners, ghost requests: nat)
    ensures r1 == LegacyResolver.LegacyResolve(repo, f1) && r2 == LegacyResolver.LegacyResolve(repo, f2)
    ensures requests == FetchCost(repo, {}, f1) + FetchCost(repo, After(repo, {}, f1), f2)
  {
    var m := new LegacyResolver.OwnersManager(repo);
    assert m.cache.Keys == {};
    r1 := Collect(m, f1, {});
    r2 := Collect(m, f2, After(repo, {}, f1));
    requests := m.requests;
  }

  /** A fresh resolver asked for the owners of f1 to f4, in that order. */
  method CollectFour(repo: Repo, f1: string, f2: string, f3: string, f4: string)
    returns (r1: Owners, r2: Owners, r3: Owners, r4: Owners, ghost requests: nat)
    ensures r1 == LegacyResolver.LegacyResolve(repo, f1) && r2 == LegacyResolver.LegacyResolve(repo, f2)
    ensures r3 == LegacyResolver.LegacyResolve(repo, f3) && r4 == LegacyResolver.LegacyResolve(repo, f4)
    ensures var k1 := After(repo, {}, f1);
      var k2 := After(repo, k1, f2);
      var k3 := After(repo, k2, f3);
      requests == FetchCost(repo, {}, f1) + FetchCost(repo, k1, f2) + FetchCost(repo, k2, f3) + FetchCost(repo, k3, f4)
  {
    var m := new LegacyResolver.OwnersManager(repo);
    assert m.cache.Keys == {};
    r1 := Collect(m, f1, {});
    r2 := Collect(m, f2, After(repo, {}, f1));
    r3 := Collect(m, f3, After(repo, After(repo, {}, f1), f2));
    r4 := Collect(m, f4, After(repo, After(repo, After(repo, {}, f1), f2), f3));
    requests := m.requests;
  }

  /** A fresh resolver asked for the owners of f1 to f5, in that order. */
  method CollectFive(repo: Repo, f1: string, f2: string, f3: string, f4: string, f5: string)
    returns (r1: Owners, r2: Owners, r3: Owners, r4: Owners, r5: Owners, ghost requests: nat)
    ensures r1 == LegacyResolver.LegacyResolve(repo, f1) && r2 == LegacyResolver.LegacyResolve(repo, f2)
    ensures r3 == LegacyResolver.LegacyResolve(repo, f3) && r4 == LegacyResolver.LegacyResolve(repo, f4)
    ensures r5 == LegacyResolver.LegacyResolve(repo, f5)
    ensures var k1 := After(repo, {}, f1);
      var k2 := After(repo, k1, f2);
      var k3 := After(repo, k2, f3);
      var k4 := After(repo, k3, f4);
      requests == FetchCost(repo, {}, f1) + FetchCost(repo, k1, f2) + FetchCost(repo, k2, f3)
        + FetchCost(repo, k3, f4) + FetchCost(repo, k4, f5)
  {
    var m := new LegacyResolver.OwnersManager(repo);
    assert m.cache.Keys == {};
    r1 := Collect(m, f1, {});
    r2 := Collect(m, f2, After(repo, {}, f1));
    r3 := Collect(m, f3, After(repo, After(repo, {}, f1), f2));
    r4 := Collect(m, f4, After(repo, After(repo, After(repo, {}, f1), f2), f3));
    r5 := Collect(m, f5, After(repo, After(repo, After(repo, After(repo, {}, f1), f2), f3), f4));
    requests := m.requests;
  }

  /** "Two file in the root directory", on the older resolver class. */
  method TwoFilesInRoot(repo: Repo, f1: string, f2: string)
    returns (r1: Owners, r2: Owners, ghost requests: nat)
    requires Dirname(f1) == "." && Dirname(f2) == "."
    requires OwnersFile in repo
    ensures requests == 1
    ensures r1 == ListOf(repo, OwnersFile) && r2 == r1
  {
    r1, r2, requests := CollectTwo(repo, f1, f2);
    TwoFilesInRootCost(repo, f1, f2);
    assert DirChain(".") == ["."];
  }

  /** "Two file in a nested directory", on the older resolver class. */
  method TwoFilesInNestedDirectory(repo: Repo, a: string, f1: string, f2: string)
    returns (r1: Owners, r2: Owners, ghost requests: nat)
    requires TopLevel(a) && Dirname(f1) == a && Dirname(f2) == a
    requires OwnersPath(a) in repo
    ensures requests == 1
    ensures r1 == ListOf(repo, OwnersPath(a)) && r2 == r1
  {
    r1, r2, requests := CollectTwo(repo, f1, f2);
    TwoFilesInNestedDirectoryCost(repo, a, f1, f2);
    NearestInTop(repo, f1, a);
  }

  /** "No owners in the current directory", on the older resolver class: the root
      OWNERS file answers all four lookups, four requests in all. */
  method NoOwnersInCurrentDirectory(repo: Repo, a: string, e1: string, e2: string,
                                    f1: string, f2: string, f3: string, f4: string)
    returns (r1: Owners, r2: Owners, r3: Owners, r4: Owners, ghost requests: nat)
    requires FourFiles(a, e1, e2, f1, f2, f3, f4)
    requires OwnersFile in repo && OwnersPath(a) !in repo && OwnersPath(e1) !in repo && OwnersPath(e2) !in repo
    ensures requests == 4
    ensures r1 == ListOf(repo, OwnersFile) && r2 == r1 && r3 == r1 && r4 == r1
  {
    r1, r2, r3, r4, requests := CollectFour(repo, f1, f2, f3, f4);
    NoOwnersInCurrentDirectoryLookups(repo, a, e1, e2, f1, f2, f3, f4);
    NoOwnersInCurrentDirectoryOwners(repo, a, e1, e2, f1, f2, f3, f4);
  }

  /** "Maybe owners in the current directory", on the older resolver class: a's
      OWNERS file answers the files below a, the root's the file in b; five
      requests in all. */
  method MaybeOwnersInCurrentDirectory(repo: Repo, a: string, b: string, e1: string, e2: string,
                                       f1: string, f2: string, f3: string, f4: string, f5: string)
    returns (r1: Owners, r2: Owners, r3: Owners, r4: Owners, r5: Owners, ghost requests: nat)
    requires FiveFiles(a, b, e1, e2, f1, f2, f3, f4, f5)
    requires OwnersFile in repo && OwnersPath(a) in repo
    requires OwnersPath(e1) !in repo && OwnersPath(e2) !in repo && OwnersPath(b) !in repo
    ensures requests == 5
    ensures r1 == ListOf(repo, OwnersPath(a)) && r2 == r1 && r3 == r1 && r4 == r1
    ensures r5 == ListOf(repo, OwnersFile)
  {
    r1, r2, r3, r4, r5, requests := CollectFive(repo, f1, f2, f3, f4, f5);
    MaybeOwnersInCurrentDirectoryLookups(repo, a, b, e1, e2, f1, f2, f3, f4, f5);
    MaybeOwnersInCurrentDirectoryOwners(repo, a, b, e1, e2, f1, f2, f3, f4, f5);
  }

  /** "No owners at all", on the older resolver class: anyone may approve every
      file; five requests in all. */
  method NoOwnersAtAll(repo: Repo, a: string, b: string, e1: string, e2: string,
                       f1: string, f2: string, f3: string, f4: string, f5: string)
    returns (r1: Owners, r2: Owners, r3: Owners, r4: Owners, r5: Owners, ghost requests: nat)
    requires FiveFiles(a, b, e1, e2, f1, f2, f3, f4, f5)
    requires OwnersFile !in repo && OwnersPath(a) !in repo
    requires OwnersPath(e1) !in repo && OwnersPath(e2) !in repo && OwnersPath(b) !in repo
    ensures requests == 5
    ensures r1 == Anyone && r2 == Anyone && r3 == Anyone && r4 == Anyone && r5 == Anyone
  {
    r1, r2, r3, r4, r5, requests := CollectFive(repo, f1, f2, f3, f4, f5);
    NoOwnersAtAllLookups(repo, a, b, e1, e2, f1, f2, f3, f4, f5);
    NoOwnersAtAllOwners(repo, a, b, e1, e2, f1, f2, f3, f4, f5);
  }

  /** "A subdir has owners only", on the older resolver class. */
  method SubdirHasOwnersOnly(repo: Repo, a: string, b: string, f1: string, f2: string)
    returns (r1: Owners, r2: Owners, ghost requests: nat)
    requires TopLevel(a) && TopLevel(b) && a != b && Dirname(f1) == a && Dirname(f2) == b
    requires OwnersPath(a) in repo && OwnersPath(b) !in repo && OwnersFile !in repo
    ensures requests == 3
    ensures r1 == ListOf(repo, OwnersPath(a)) && r2 == Anyone
  {
    r1, r2, requests := CollectTwo(repo, f1, f2);
    SubdirHasOwnersOnlyCost(repo, a, b, f1, f2);
    NearestInTop(repo, f1, a);
    NearestInTop(repo, f2, b);
  }
}
