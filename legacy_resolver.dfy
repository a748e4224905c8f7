/** The older OWNERS resolver of index.js. It walks and caches exactly like the
    resolver of src/OwnersManager.ts, but it stores the bare lines of an OWNERS
    file (no filtering of blank or "#" lines) and reports no module path. */
module LegacyResolver {
  import opened Paths
  import opened Text
  import opened Ownership
  import opened Lookup
  import opened Walk

  /** Owners of a file as index.js reports them, looked up with no cache: anyone
      when no directory up to the root has an OWNERS file, else every line of the
      nearest one. */
  function LegacyResolve(repo: Repo, file: string): Owners
  {
    match NearestOwnersFile(repo, Dirname(file))
    case None => Anyone
    case Some(f) => List(Split(repo[f], '\n'))
  }

  /** The older resolver says anyone exactly when there is no OWNERS file on the
      way to the root; otherwise the list is the file's text cut at line breaks,
      which joins back to the text. */
  lemma LegacyResolveSpec(repo: Repo, file: string)
    ensures LegacyResolve(repo, file).Anyone? <==> NearestOwnersFile(repo, Dirname(file)).None?
    ensures var n := NearestOwnersFile(repo, Dirname(file));
      n.Some? ==> LegacyResolve(repo, file).list != [] && Join(LegacyResolve(repo, file).list, "\n") == repo[n.value]
  {
    var n := NearestOwnersFile(repo, Dirname(file));
    if n.Some? {
      JoinSplit(repo[n.value], '\n');
    }
  }

  /** Filtering the older resolver's list gives the newer resolver's answer: both
      read the same OWNERS file, and the newer one only drops blank and "#" lines. */
  lemma LegacyFilteredIsCurrent(repo: Repo, file: string)
    ensures var legacy := LegacyResolve(repo, file);
      var current := Resolve(repo, file).owners;
      && (legacy.Anyone? ==> current.Anyone?)
      && (legacy.List? ==> current == if OwnerLines(legacy.list) == [] then Anyone else List(OwnerLines(legacy.list)))
  {
    var c := DirChain(Dirname(file));
    FirstPresentUnique(repo, c, FirstPresent(repo, c));
  }

  /** An empty OWNERS file: the older resolver requires an approval from the user
      named "" (nobody), where the newer one lets anyone approve. */
  lemma LegacyEmptyFile(repo: Repo, file: string)
    requires NearestOwnersFile(repo, Dirname(file)).Some?
    requires repo[NearestOwnersFile(repo, Dirname(file)).value] == ""
    ensures LegacyResolve(repo, file) == List([""])
    ensures Resolve(repo, file).owners == Anyone
  {
    LegacyFilteredIsCurrent(repo, file);
  }

  class OwnersManager {
    /** The content provider: decoded OWNERS texts; a missing path is a request that fails. */
    const repo: Repo
    /** pathOwnersCache: OWNERS path to the lines of the OWNERS file that governs it. */
    var cache: map<string, seq<string>>
    /** Requests made to the content provider so far. */
    ghost var requests: nat

    ghost predicate Valid()
      reads this
    {
      ValidCache(repo, Lines, [], cache)
    }

    constructor (repo: Repo)
      ensures this.repo == repo && cache == map[] && requests == 0
      ensures Valid()
    {
      this.repo := repo;
      cache := map[];
      requests := 0;
    }

    /** collectOwners: the owners of a file exactly as a cache-free lookup finds
        them; the cache gains correct entries for the directories the walk passed
        and the requests made are those FetchCost counts. */
    method CollectOwners(path: string) returns (r: Owners)
      requires Valid()
      modifies this`cache, this`requests
      ensures Valid()
      ensures r == LegacyResolve(repo, path)
      ensures cache == old(cache) + Fill(Filled(repo, old(cache).Keys, path), Found(repo, Dirname(path), Lines, []))
      ensures requests == old(requests) + FetchCost(repo, old(cache).Keys, path)
    {
      var content := GetOwnersfileContent(path, path);
      if content == None || |content.value| == 0 {
        r := Anyone;
      } else {
        r := List(content.value);
      }
      WalkOfFile(repo, Lines, [], old(cache), path);
      FillKeepsValid(repo, Lines, [], old(cache), path);
    }

    /** getOwnersfileContent: the same walk as the newer resolver's. */
    method GetOwnersfileContent(path: string, origPath: string) returns (content: Option<seq<string>>)
      requires IsSuffix(DirChain(Dirname(path)), DirChain(Dirname(origPath)))
      modifies this`cache, this`requests
      decreases |path|
      ensures var o := WalkOutcome(repo, Lines, [], old(cache), DirChain(Dirname(path)), DirChain(Dirname(origPath)));
        content == o.content && cache == o.cache && requests == old(requests) + o.cost
    {
      var dirname := Dirname(path);
      TailStep(path, origPath);
      if dirname == "." {
        WalkRoot(repo, Lines, [], cache, DirChain(Dirname(origPath)));
        content := GetFileContent(OwnersFile, origPath);
        if content == None {
          SaveListInCache(OwnersFile, origPath, []);
        }
      } else {
        var ownersfilepath := dirname + "/" + OwnersFile;
        WalkStep(repo, Lines, [], cache, dirname, DirChain(Dirname(origPath)));
        content := GetFileContent(ownersfilepath, origPath);
        if content == None {
          DirnameShorter(path);
          content := GetOwnersfileContent(dirname, origPath);
        }
      }
    }

    /** getFileContent: the cache entry if there is one (an empty list counts),
        otherwise one request whose text is split into lines, unfiltered, and
        back-filled into the cache; a request that fails gives None. */
    method GetFileContent(path: string, origPath: string) returns (content: Option<seq<string>>)
      requires path in Keys(DirChain(Dirname(origPath)))
      modifies this`cache, this`requests
      ensures var o := FetchOutcome(repo, Lines, old(cache), path, DirChain(Dirname(origPath)));
        content == o.content && cache == o.cache && requests == old(requests) + o.cost
    {
      if path in cache {
        return Some(cache[path]);
      }
      requests := requests + 1;
      if path in repo {
        var list := Split(repo[path], '\n');
        SaveListInCache(path, origPath, list);
        content := Some(list);
      } else {
        content := None;
      }
    }

    /** saveListInCache: map the OWNERS path of origPath's directory, and of each
        ancestor up to the one whose OWNERS path is found, to the list. */
    method SaveListInCache(found: string, origPath: string, list: seq<string>)
      requires found in Keys(DirChain(Dirname(origPath)))
      modifies this`cache
      decreases |origPath|
      ensures cache == old(cache) + Fill(KeysUpTo(DirChain(Dirname(origPath)), found), list)
    {
      var dirname := Dirname(origPath);
      var ownersPath := if dirname == "." then OwnersFile else dirname + "/" + OwnersFile;
      cache := cache[ownersPath := list];
      if found != ownersPath {
        KeysUpToStep(dirname, found);
        FillStep(old(cache), ownersPath, KeysUpTo(DirChain(Dirname(dirname)), found), list);
        SaveListInCache(found, dirname, list);
      } else {
        assert DirChain(dirname)[0] == dirname;
      }
    }
  }
}
