/** Directory arithmetic on the relative, '/'-separated file names that a pull
    request reports, and the location of the OWNERS file of each directory. */
module Paths {

  /** The ownership declaration recognised at every directory level. */
  const OwnersFile: string := "OWNERS"

  /** Index of the last '/' in p, or -1 when p has none. */
  function LastSlash(p: string): (i: int)
    ensures -1 <= i < |p|
  {
    if p == [] then -1
    else if p[|p| - 1] == '/' then |p| - 1
    else LastSlash(p[..|p| - 1])
  }

  /** LastSlash finds a '/' with none after it, or reports that there is none. */
  lemma {:induction false} LastSlashSpec(p: string)
    ensures 0 <= LastSlash(p) ==> p[LastSlash(p)] == '/'
    ensures forall j :: LastSlash(p) < j < |p| ==> p[j] != '/'
  {
    if p != [] && p[|p| - 1] != '/' {
      var q := p[..|p| - 1];
      LastSlashSpec(q);
      assert forall j :: 0 <= j < |q| ==> q[j] == p[j];
    }
  }

  /** Path.dirname on a relative path: everything before the last '/', or "."
      when the path has no '/' at all. */
  function Dirname(p: string): string
  {
    var i := LastSlash(p);
    if i < 0 then "." else p[..i]
  }

  /** Dirname is "." for a name without '/', else the part before a '/' that
      nothing after it repeats. */
  lemma DirnameSpec(p: string)
    ensures '/' !in p ==> Dirname(p) == "."
    ensures '/' in p ==> Dirname(p) + "/" <= p && '/' !in p[|Dirname(p)| + 1..]
  {
    LastSlashSpec(p);
    var i := LastSlash(p);
    assert 0 <= i ==> p[i] in p;
    if '/' in p {
      var k :| 0 <= k < |p| && p[k] == '/';
      assert 0 <= i;
      assert Dirname(p) + "/" == p[..i + 1];
      var t := p[i + 1..];
      assert forall j :: 0 <= j < |t| ==> t[j] == p[i + 1 + j];
    }
  }

  /** A directory other than "." is a proper prefix of the path it came from. */
  lemma DirnameShorter(p: string)
    requires Dirname(p) != "."
    ensures |Dirname(p)| < |p|
  {
  }

  /** The OWNERS file of directory d: bare "OWNERS" for the root ".", else d + "/OWNERS". */
  function OwnersPath(d: string): string
  {
    if d == "." then OwnersFile else d + "/" + OwnersFile
  }

  /** A measure that Dirname decreases until it reaches ".". */
  function Height(d: string): nat
  {
    if d == "." then 0 else |d| + 1
  }

  lemma DirnameDescends(d: string)
    requires d != "."
    ensures Height(Dirname(d)) < Height(d)
  {
  }

  /** The directories a lookup visits, from d itself up to and including the root ".". */
  function DirChain(d: string): (c: seq<string>)
    decreases Height(d)
    ensures 1 <= |c| && c[0] == d && c[|c| - 1] == "."
  {
    if d == "." then ["."]
    else
      DirnameDescends(d);
      [d] + DirChain(Dirname(d))
  }

  /** Each directory of a chain but the last is below the root, and the next one is its parent. */
  lemma ChainStep(d: string, j: nat)
    requires j + 1 < |DirChain(d)|
    ensures DirChain(d)[j] != "." && DirChain(d)[j + 1] == Dirname(DirChain(d)[j])
  {
    var c := DirChain(d);
    ChainSuffix(d, j);
    assert |DirChain(c[j])| == |c| - j;
    ChainCons(c[j]);
    assert c[j + 1] == c[j..][1];
  }

  /** The OWNERS paths of a sequence of directories, in the same order. */
  function Keys(dirs: seq<string>): (ks: seq<string>)
    ensures |ks| == |dirs|
    ensures forall j :: 0 <= j < |dirs| ==> ks[j] == OwnersPath(dirs[j])
  {
    seq(|dirs|, j requires 0 <= j < |dirs| => OwnersPath(dirs[j]))
  }

  /** Dirname only cuts at a '/' that nothing after it repeats. */
  lemma DirnameAt(p: string, i: nat)
    requires i < |p| && p[i] == '/'
    requires '/' !in p[i + 1..]
    ensures Dirname(p) == p[..i]
  {
    LastSlashSpec(p);
    var t := p[i + 1..];
    forall j | i < j < |p| ensures p[j] != '/' {
      assert p[j] == t[j - i - 1];
    }
  }

  /** The directory of a file named a + "/" + b, b holding no '/', is a. */
  lemma DirnameOfJoin(a: string, b: string)
    requires '/' !in b
    ensures Dirname(a + "/" + b) == a
  {
    var p := a + "/" + b;
    assert p[|a| + 1..] == b;
    DirnameAt(p, |a|);
    assert p[..|a|] == a;
  }

  /** The directory of d's OWNERS file is d again. */
  lemma DirnameOfOwnersPath(d: string)
    ensures Dirname(OwnersPath(d)) == d
  {
    assert forall j :: 0 <= j < |OwnersFile| ==> OwnersFile[j] != '/';
    DirnameSpec(OwnersFile);
    if d != "." {
      DirnameOfJoin(d, OwnersFile);
    }
  }

  /** Distinct directories have distinct OWNERS files, so the cache keys of a lookup never collide. */
  lemma OwnersPathInjective(d: string, e: string)
    requires OwnersPath(d) == OwnersPath(e)
    ensures d == e
  {
    DirnameOfOwnersPath(d);
    DirnameOfOwnersPath(e);
  }

  /** Heights strictly decrease along a chain, so a chain never repeats a directory. */
  lemma {:induction false} ChainHeights(d: string, i: nat, j: nat)
    requires i < j < |DirChain(d)|
    decreases j - i
    ensures Height(DirChain(d)[j]) < Height(DirChain(d)[i])
  {
    var c := DirChain(d);
    ChainStep(d, i);
    DirnameDescends(c[i]);
    if i + 1 < j {
      ChainHeights(d, i + 1, j);
    }
  }

  /** No two directories of a chain share an OWNERS path. */
  lemma ChainKeysDistinct(d: string, i: nat, j: nat)
    requires i < j < |DirChain(d)|
    ensures OwnersPath(DirChain(d)[i]) != OwnersPath(DirChain(d)[j])
  {
    ChainHeights(d, i, j);
    if OwnersPath(DirChain(d)[i]) == OwnersPath(DirChain(d)[j]) {
      OwnersPathInjective(DirChain(d)[i], DirChain(d)[j]);
    }
  }

  /** Every suffix of a chain is the chain of its first directory: the walk from an
      ancestor is the rest of the walk from the file. */
  lemma {:induction false} ChainSuffix(d: string, j: nat)
    requires j < |DirChain(d)|
    decreases j
    ensures DirChain(DirChain(d)[j]) == DirChain(d)[j..]
  {
    if j > 0 {
      ChainCons(d);
      DirnameDescends(d);
      ChainSuffix(Dirname(d), j - 1);
      DropCons(d, DirChain(Dirname(d)), j);
    }
  }

  /** The last OWNERS path of a chain is the root OWNERS file. */
  lemma ChainEndsAtRoot(d: string)
    ensures OwnersPath(DirChain(d)[|DirChain(d)| - 1]) == OwnersFile
  {
    var c := DirChain(d);
    assert c[|c| - 1] == ".";
  }

  /** Below the root, a chain is its first directory followed by its parent's chain. */
  lemma ChainCons(d: string)
    requires d != "." || 1 < |DirChain(d)|
    ensures d != "." && DirChain(d) == [d] + DirChain(Dirname(d))
  {
  }

  lemma DropCons<T>(x: T, s: seq<T>, j: nat)
    requires 0 < j <= |s|
    ensures ([x] + s)[j..] == s[j - 1..] && ([x] + s)[j] == s[j - 1]
  {
  }
}
