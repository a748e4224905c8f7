/** The OWNERS resolver of src/OwnersManager.ts: a walk from a file's directory up
    to the root that stops at the first OWNERS file it can read, through a cache
    that is back-filled for every directory the walk passed. */
module Resolver {
  import opened Paths
  import opened Ownership
  import opened Lookup
  import opened Walk

  class OwnersManager {
    /** The content provider: decoded OWNERS texts; a missing path is a request that fails. */
    const repo: Repo
    /** pathOwnersCache: OWNERS path to the owners and the OWNERS file they came from. */
    var cache: map<string, OwnersData>
    /** Requests made to the content provider so far. */
    ghost var requests: nat

    ghost predicate Valid()
      reads this
    {
      ValidCache(repo, Parsed, OwnersData([], OwnersFile), cache)
    }

    constructor (repo: Repo)
      ensures this.repo == repo && cache == map[] && requests == 0
      ensures Valid()
    {
      this.repo := repo;
      cache := map[];
      requests := 0;
    }

    /** collectOwners: the owners of a file and its module, exactly as a cache-free
        lookup finds them; the cache gains the entries of the directories the walk
        passed (all correct) and the requests made are those FetchCost counts. */
    method CollectOwners(path: string) returns (r: OwnersResult)
      requires Valid()
      modifies this`cache, this`requests
      ensures Valid()
      ensures r == Resolve(repo, path)
      ensures cache == old(cache) + Fill(Filled(repo, old(cache).Keys, path), Governing(repo, Dirname(path)))
      ensures requests == old(requests) + FetchCost(repo, old(cache).Keys, path)
    {
      var content := GetOwnersfileContent(path, path);
      if content == None {
        r := OwnersResult(Anyone, ".");
      } else if |content.value.owners| == 0 {
        r := OwnersResult(Anyone, Dirname(content.value.path));
      } else {
        r := OwnersResult(List(content.value.owners), Dirname(content.value.path));
      }
      WalkOfFile(repo, Parsed, OwnersData([], OwnersFile), old(cache), path);
      FillKeepsValid(repo, Parsed, OwnersData([], OwnersFile), old(cache), path);
      ResolveIsGoverning(repo, path);
      DirnameOfOwnersPath(".");
    }

    /** getOwnersfileContent: try the OWNERS file of path's directory, then those
        of its ancestors, the root last; stop at the first that the cache or a
        request supplies. A request that fails writes nothing; if the root
        request fails too, the empty list is cached for the whole walk. */
    method GetOwnersfileContent(path: string, origPath: string) returns (content: Option<OwnersData>)
      requires IsSuffix(DirChain(Dirname(path)), DirChain(Dirname(origPath)))
      modifies this`cache, this`requests
      decreases |path|
      ensures var o := WalkOutcome(repo, Parsed, OwnersData([], OwnersFile), old(cache), DirChain(Dirname(path)), DirChain(Dirname(origPath)));
        content == o.content && cache == o.cache && requests == old(requests) + o.cost
    {
      var dirname := Dirname(path);
      TailStep(path, origPath);
      if dirname == "." {
        WalkRoot(repo, Parsed, OwnersData([], OwnersFile), cache, DirChain(Dirname(origPath)));
        content := GetFileContent(OwnersFile, origPath);
        if content == None {
          SaveListInCache(OwnersFile, origPath, []);
        }
      } else {
        var ownersfilepath := dirname + "/" + OwnersFile;
        WalkStep(repo, Parsed, OwnersData([], OwnersFile), cache, dirname, DirChain(Dirname(origPath)));
        content := GetFileContent(ownersfilepath, origPath);
        if content == None {
          DirnameShorter(path);
          content := GetOwnersfileContent(dirname, origPath);
        }
      }
    }

    /** getFileContent: the cache entry if there is one, otherwise one request;
        what a request returns is split into lines, blank and "#" lines dropped,
        and back-filled into the cache; a request that fails gives None. */
    method GetFileContent(path: string, origPath: string) returns (content: Option<OwnersData>)
      requires path in Keys(DirChain(Dirname(origPath)))
      modifies this`cache, this`requests
      ensures var o := FetchOutcome(repo, Parsed, old(cache), path, DirChain(Dirname(origPath)));
        content == o.content && cache == o.cache && requests == old(requests) + o.cost
    {
      if path in cache {
        return Some(cache[path]);
      }
      requests := requests + 1;
      if path in repo {
        var list := ParseOwners(repo[path]);
        SaveListInCache(path, origPath, list);
        content := Some(OwnersData(list, path));
      } else {
        content := None;
      }
    }

    /** saveListInCache: map the OWNERS path of origPath's directory, and of each
        ancestor up to the one whose OWNERS path is found, to the list and found. */
    method SaveListInCache(found: string, origPath: string, list: seq<string>)
      requires found in Keys(DirChain(Dirname(origPath)))
      modifies this`cache
      decreases |origPath|
      ensures cache == old(cache) + Fill(KeysUpTo(DirChain(Dirname(origPath)), found), OwnersData(list, found))
    {
      var dirname := Dirname(origPath);
      var ownersPath := if dirname == "." then OwnersFile else dirname + "/" + OwnersFile;
      cache := cache[ownersPath := OwnersData(list, found)];
      if found != ownersPath {
        KeysUpToStep(dirname, found);
        FillStep(old(cache), ownersPath, KeysUpTo(DirChain(Dirname(dirname)), found), OwnersData(list, found));
        SaveListInCache(found, dirname, list);
      } else {
        assert DirChain(dirname)[0] == dirname;
      }
    }
  }
}
