/** The decision of doApproverCheckLogic in src/index.ts: resolve the owners of
    every changed file, group them by module, decide for each module whose
    approval is still missing, and turn that into a commit status and the body
    of the bot's comment, which updates the comment of an earlier run when
    there is one. */
module Decision {
  import opened Ownership
  import opened Lookup
  import opened Text
  import opened Reviews
  import opened CommentFormatter
  import Paths
  import Resolver

  /** One entry of a JavaScript Map. */
  datatype Entry<V> = Entry(key: string, value: V)

  /** No key occurs twice. */
  predicate UniqueKeys<V>(m: seq<Entry<V>>)
  {
    forall i, j :: 0 <= i < j < |m| ==> m[i].key != m[j].key
  }

  /** The keys of the entries. */
  function KeySet<V>(m: seq<Entry<V>>): set<string>
  {
    set i | 0 <= i < |m| :: m[i].key
  }

  /** Index of the entry with key k, or |m| when there is none. */
  function IndexOf<V>(m: seq<Entry<V>>, k: string): (i: nat)
    ensures i <= |m|
    ensures forall j :: 0 <= j < i ==> m[j].key != k
    ensures i < |m| ==> m[i].key == k
  {
    if m == [] then 0 else if m[0].key == k then 0 else 1 + IndexOf(m[1..], k)
  }

  /** Map.prototype.set: an existing key keeps its place and takes the new value,
      a new key goes last. */
  function MapSet<V>(m: seq<Entry<V>>, k: string, v: V): seq<Entry<V>>
  {
    var i := IndexOf(m, k);
    if i < |m| then m[i := Entry(k, v)] else m + [Entry(k, v)]
  }

  /** After a set, the key is present with its new value, the other entries are
      unchanged, no entry is lost and keys stay unique. */
  lemma MapSetSpec<V>(m: seq<Entry<V>>, k: string, v: V)
    ensures var r := MapSet(m, k, v);
      && |r| >= 1
      && KeySet(r) == KeySet(m) + {k}
      && Entry(k, v) in r
      && (forall e :: e in r ==> e in m || e == Entry(k, v))
      && (UniqueKeys(m) ==> UniqueKeys(r))
      && (k !in KeySet(m) ==> r == m + [Entry(k, v)])
  {
    var r := MapSet(m, k, v);
    var i := IndexOf(m, k);
    if i < |m| {
      assert r[i] == Entry(k, v);
      forall e | e in r ensures e in m || e == Entry(k, v) {
        var j :| 0 <= j < |r| && r[j] == e;
        if j != i {
          assert e == m[j];
        }
      }
      forall key | key in KeySet(m) ensures key in KeySet(r) {
        var j :| 0 <= j < |m| && m[j].key == key;
        assert r[j].key == key;
      }
      assert KeySet(r) <= KeySet(m) + {k};
      assert k in KeySet(m);
    } else {
      assert r[|m|] == Entry(k, v);
      assert forall j :: 0 <= j < |m| ==> r[j] == m[j];
      assert KeySet(r) == KeySet(m) + {k};
    }
  }

  /** The owners of a module: the users its OWNERS file lists, or anyone when it
      lists nobody or when the module is the root and has no OWNERS file. */
  function ModuleOwnersOf(repo: Repo, dir: string): Owners
  {
    var f := Paths.OwnersPath(dir);
    if f in repo && ParseOwners(repo[f]) != [] then List(ParseOwners(repo[f])) else Anyone
  }

  /** A file's owners depend only on its module: files of one module always get
      the same owners, so collecting them per module loses nothing. */
  lemma ResolveByModule(repo: Repo, file: string)
    ensures Resolve(repo, file).owners == ModuleOwnersOf(repo, Resolve(repo, file).path)
  {
    var c := Paths.DirChain(Paths.Dirname(file));
    var i := FirstPresent(repo, c);
    if i == |c| {
      assert Paths.OwnersPath(c[|c| - 1]) !in repo;
    }
  }

  /** moduleOwnersMap after the loop over the changed files: each file's module
      set to its owners, in the order the files come. */
  function ModuleOwners(repo: Repo, files: seq<string>): seq<Entry<Owners>>
    decreases |files|
  {
    if files == [] then []
    else
      var r := Resolve(repo, files[|files| - 1]);
      MapSet(ModuleOwners(repo, files[..|files| - 1]), r.path, r.owners)
  }

  /** The modules of the changed files. */
  function ModulesOf(repo: Repo, files: seq<string>): set<string>
  {
    set f | f in files :: Resolve(repo, f).path
  }

  /** moduleOwnersMap holds each module of a changed file once, with that
      module's owners, and nothing else. */
  lemma {:induction false} ModuleOwnersSpec(repo: Repo, files: seq<string>)
    ensures UniqueKeys(ModuleOwners(repo, files))
    ensures forall e :: e in ModuleOwners(repo, files) ==> e.value == ModuleOwnersOf(repo, e.key)
    ensures KeySet(ModuleOwners(repo, files)) == ModulesOf(repo, files)
    decreases |files|
  {
    if files != [] {
      var front := files[..|files| - 1];
      var r := Resolve(repo, files[|files| - 1]);
      ModuleOwnersSpec(repo, front);
      MapSetSpec(ModuleOwners(repo, front), r.path, r.owners);
      ResolveByModule(repo, files[|files| - 1]);
      ModulesOfSnoc(repo, files);
    }
  }

  lemma ModulesOfSnoc(repo: Repo, files: seq<string>)
    requires files != []
    ensures ModulesOf(repo, files) == ModulesOf(repo, files[..|files| - 1]) + {Resolve(repo, files[|files| - 1]).path}
  {
    var front := files[..|files| - 1];
    var last := files[|files| - 1];
    Snoc(files);
    forall p | p in ModulesOf(repo, files) ensures p in ModulesOf(repo, front) + {Resolve(repo, last).path} {
      var f :| f in files && Resolve(repo, f).path == p;
      if f != last {
        assert f in front;
      }
    }
    forall p | p in ModulesOf(repo, front) ensures p in ModulesOf(repo, files) {
      var f :| f in front && Resolve(repo, f).path == p;
      assert f in files;
    }
    assert last in files;
  }

  lemma Snoc<T>(s: seq<T>)
    requires s != []
    ensures s == s[..|s| - 1] + [s[|s| - 1]]
    ensures forall x :: x in s <==> x in s[..|s| - 1] || x == s[|s| - 1]
  {
    assert s == s[..|s| - 1] + [s[|s| - 1]];
  }

  /** The owners in list that requested changes, in list order, duplicates kept. */
  function Rejecting(list: seq<string>, rejecters: seq<string>): (r: seq<string>)
    ensures forall o :: o in r <==> o in list && o in rejecters
    ensures |r| <= |list|
  {
    if list == [] then []
    else (if list[0] in rejecters then [list[0]] else []) + Rejecting(list[1..], rejecters)
  }

  /** The filter distributes over concatenation, so it keeps the owners' order. */
  lemma {:induction false} RejectingAppend(a: seq<string>, b: seq<string>, rejecters: seq<string>)
    ensures Rejecting(a + b, rejecters) == Rejecting(a, rejecters) + Rejecting(b, rejecters)
  {
    if a == [] {
      assert a + b == b;
    } else {
      var ab := a + b;
      assert ab[0] == a[0] && ab[1..] == a[1..] + b;
      RejectingAppend(a[1..], b, rejecters);
      var head := if a[0] in rejecters then [a[0]] else [];
      calc {
        Rejecting(ab, rejecters);
        head + Rejecting(a[1..] + b, rejecters);
        head + (Rejecting(a[1..], rejecters) + Rejecting(b, rejecters));
        (head + Rejecting(a[1..], rejecters)) + Rejecting(b, rejecters);
      }
    }
  }

  /** An owner who requested changes occurs as often as in the list, and any
      other owner not at all. */
  lemma {:induction false} RejectingCount(list: seq<string>, rejecters: seq<string>, x: string)
    ensures multiset(Rejecting(list, rejecters))[x] == if x in rejecters then multiset(list)[x] else 0
  {
    if list != [] {
      var rest := list[1..];
      RejectingCount(rest, rejecters, x);
      var head := if list[0] in rejecters then [list[0]] else [];
      assert list == [list[0]] + rest;
      assert multiset(list) == multiset([list[0]]) + multiset(rest);
      assert multiset(Rejecting(list, rejecters)) == multiset(head) + multiset(Rejecting(rest, rejecters));
    }
  }

  /** The per-module test of doApproverCheckLogic: None when the module is
      satisfied, else the owners whose approval it still needs. */
  function Requirement(owners: Owners, v: Votes): Option<Owners>
  {
    match owners
    case List(list) =>
      var missingApprover := forall o :: o in list ==> o !in v.approvers;
      var rejecterOfModule := Rejecting(list, v.rejecters);
      if missingApprover || |rejecterOfModule| > 0 then
        Some(List(if |rejecterOfModule| > 0 then rejecterOfModule else list))
      else None
    case Anyone =>
      if |v.approvers| == 0 || |v.rejecters| > 0 then
        Some(if |v.rejecters| > 0 then List(v.rejecters) else Anyone)
      else None
  }

  /** A module with an owner list is satisfied exactly when one of its owners
      approved and none of them requested changes; otherwise it needs the owners
      who requested changes, or when there are none, any of its owners. */
  lemma ListRequirement(list: seq<string>, v: Votes)
    ensures Requirement(List(list), v).None? <==>
      (exists o :: o in list && o in v.approvers) && (forall o :: o in list ==> o !in v.rejecters)
    ensures Requirement(List(list), v).Some? ==> Requirement(List(list), v).value.List?
    ensures Requirement(List(list), v).Some? && (exists o :: o in list && o in v.rejecters) ==>
      forall o :: o in Requirement(List(list), v).value.list <==> o in list && o in v.rejecters
    ensures Requirement(List(list), v).Some? && (forall o :: o in list ==> o !in v.rejecters) ==>
      Requirement(List(list), v).value.list == list
  {
    var r := Rejecting(list, v.rejecters);
    if |r| > 0 {
      assert r[0] in r;
    }
    if exists o :: o in list && o in v.rejecters {
      var o :| o in list && o in v.rejecters;
      assert o in r;
    }
  }

  /** A module anyone may approve, in terms of the reviews: it is satisfied
      exactly when the last counting review of some user approves the head commit
      and no user's last counting review requests changes. Otherwise it needs
      every user whose last counting review requests changes, each once, or
      anyone when there is none. */
  lemma AnyoneModuleByReviews(reviews: seq<Review>, head: string)
    ensures Requirement(Anyone, Tally(reviews, head)).None? <==>
      (exists u :: LastVerdict(reviews, head, u) == Some(Approve)) &&
      (forall u :: LastVerdict(reviews, head, u) != Some(Reject))
    ensures Requirement(Anyone, Tally(reviews, head)).Some? && (exists u :: LastVerdict(reviews, head, u) == Some(Reject)) ==>
      && Requirement(Anyone, Tally(reviews, head)).value.List?
      && Distinct(Requirement(Anyone, Tally(reviews, head)).value.list)
      && forall u :: u in Requirement(Anyone, Tally(reviews, head)).value.list <==> LastVerdict(reviews, head, u) == Some(Reject)
    ensures Requirement(Anyone, Tally(reviews, head)).Some? && (forall u :: LastVerdict(reviews, head, u) != Some(Reject)) ==>
      Requirement(Anyone, Tally(reviews, head)).value == Anyone
  {
    AnyoneVotes(Tally(reviews, head));
    SomeVerdict(reviews, head);
    VotesByReviews(reviews, head);
    TallyWellFormed(reviews, head);
  }

  /** The sets of the fold are non-empty exactly when some user's last counting
      review approves, or requests changes. */
  lemma SomeVerdict(reviews: seq<Review>, head: string)
    ensures |Tally(reviews, head).approvers| > 0 <==> exists u :: LastVerdict(reviews, head, u) == Some(Approve)
    ensures |Tally(reviews, head).rejecters| > 0 <==> exists u :: LastVerdict(reviews, head, u) == Some(Reject)
  {
    var v := Tally(reviews, head);
    VotesByReviews(reviews, head);
    if |v.approvers| > 0 {
      var u := v.approvers[0];
      assert u in v.approvers;
      assert LastVerdict(reviews, head, u) == Some(Approve);
      assert exists w :: LastVerdict(reviews, head, w) == Some(Approve);
    }
    if exists u :: LastVerdict(reviews, head, u) == Some(Approve) {
      var u :| LastVerdict(reviews, head, u) == Some(Approve);
      assert u in v.approvers;
      assert v.approvers != [];
    }
    if |v.rejecters| > 0 {
      var u := v.rejecters[0];
      assert u in v.rejecters;
      assert LastVerdict(reviews, head, u) == Some(Reject);
      assert exists w :: LastVerdict(reviews, head, w) == Some(Reject);
    }
    if exists u :: LastVerdict(reviews, head, u) == Some(Reject) {
      var u :| LastVerdict(reviews, head, u) == Some(Reject);
      assert u in v.rejecters;
      assert v.rejecters != [];
    }
  }

  /** The Anyone branch of Requirement on the two sets. */
  lemma AnyoneVotes(v: Votes)
    ensures Requirement(Anyone, v).None? <==> |v.approvers| > 0 && |v.rejecters| == 0
    ensures Requirement(Anyone, v).Some? ==>
      Requirement(Anyone, v).value == if |v.rejecters| > 0 then List(v.rejecters) else Anyone
  {
  }

  /** Membership in the two sets of the fold, user by user. */
  lemma VotesByReviews(reviews: seq<Review>, head: string)
    ensures forall u :: u in Tally(reviews, head).approvers <==> LastVerdict(reviews, head, u) == Some(Approve)
    ensures forall u :: u in Tally(reviews, head).rejecters <==> LastVerdict(reviews, head, u) == Some(Reject)
  {
    forall u ensures (u in Tally(reviews, head).approvers <==> LastVerdict(reviews, head, u) == Some(Approve))
               && (u in Tally(reviews, head).rejecters <==> LastVerdict(reviews, head, u) == Some(Reject)) {
      TallyIsLastVerdict(reviews, head, u);
    }
  }

  /** The same, in terms of the reviews: a module with an owner list is satisfied
      exactly when the last counting review of some owner approves the head
      commit and no owner's last counting review requests changes. */
  lemma ListModuleByReviews(list: seq<string>, reviews: seq<Review>, head: string)
    ensures Requirement(List(list), Tally(reviews, head)).None? <==>
      (exists o :: o in list && LastVerdict(reviews, head, o) == Some(Approve)) &&
      (forall o :: o in list ==> LastVerdict(reviews, head, o) != Some(Reject))
  {
    var v := Tally(reviews, head);
    forall o ensures (o in v.approvers <==> LastVerdict(reviews, head, o) == Some(Approve))
               && (o in v.rejecters <==> LastVerdict(reviews, head, o) == Some(Reject)) {
      TallyIsLastVerdict(reviews, head, o);
    }
    ListRequirement(list, v);
  }

  /** requireApproveModules after the loop over moduleOwnersMap: each module that
      is not satisfied, with the owners it needs. */
  function Requirements(modules: seq<Entry<Owners>>, v: Votes): seq<Entry<Owners>>
    decreases |modules|
  {
    if modules == [] then []
    else
      var e := modules[|modules| - 1];
      var prev := Requirements(modules[..|modules| - 1], v);
      match Requirement(e.value, v)
      case Some(need) => MapSet(prev, e.key, need)
      case None => prev
  }

  /** requireApproveModules is empty exactly when every module is satisfied. */
  lemma {:induction false} RequirementsEmpty(modules: seq<Entry<Owners>>, v: Votes)
    ensures Requirements(modules, v) == [] <==> forall e :: e in modules ==> Requirement(e.value, v).None?
    decreases |modules|
  {
    if modules != [] {
      var front := modules[..|modules| - 1];
      var e := modules[|modules| - 1];
      RequirementsEmpty(front, v);
      Snoc(modules);
      if Requirement(e.value, v).Some? {
        MapSetSpec(Requirements(front, v), e.key, Requirement(e.value, v).value);
      }
    }
  }

  /** Every module in requireApproveModules is a module that is not satisfied,
      with what it needs. */
  lemma {:induction false} RequirementsSound(modules: seq<Entry<Owners>>, v: Votes)
    ensures forall e :: e in Requirements(modules, v) ==>
      exists d :: d in modules && d.key == e.key && Requirement(d.value, v) == Some(e.value)
    decreases |modules|
  {
    if modules != [] {
      var front := modules[..|modules| - 1];
      var e := modules[|modules| - 1];
      RequirementsSound(front, v);
      Snoc(modules);
      if Requirement(e.value, v).Some? {
        MapSetSpec(Requirements(front, v), e.key, Requirement(e.value, v).value);
      }
    }
  }

  /** The modules that are not satisfied. */
  function UnsatisfiedKeys(modules: seq<Entry<Owners>>, v: Votes): set<string>
  {
    set d | d in modules && Requirement(d.value, v).Some? :: d.key
  }

  /** Every module that is not satisfied is in requireApproveModules. */
  lemma {:induction false} RequirementsKeys(modules: seq<Entry<Owners>>, v: Votes)
    ensures KeySet(Requirements(modules, v)) == UnsatisfiedKeys(modules, v)
    decreases |modules|
  {
    if modules != [] {
      var front := modules[..|modules| - 1];
      var e := modules[|modules| - 1];
      RequirementsKeys(front, v);
      if Requirement(e.value, v).Some? {
        MapSetSpec(Requirements(front, v), e.key, Requirement(e.value, v).value);
      }
      UnsatisfiedKeysSnoc(modules, v);
    }
  }

  lemma UnsatisfiedKeysSnoc(modules: seq<Entry<Owners>>, v: Votes)
    requires modules != []
    ensures var e := modules[|modules| - 1];
      UnsatisfiedKeys(modules, v)
        == UnsatisfiedKeys(modules[..|modules| - 1], v) + (if Requirement(e.value, v).Some? then {e.key} else {})
  {
    var front := modules[..|modules| - 1];
    var e := modules[|modules| - 1];
    Snoc(modules);
    forall k | k in UnsatisfiedKeys(modules, v)
      ensures k in UnsatisfiedKeys(front, v) + (if Requirement(e.value, v).Some? then {e.key} else {}) {
      var d :| d in modules && Requirement(d.value, v).Some? && d.key == k;
      if d != e {
        assert d in front;
      }
    }
    forall k | k in UnsatisfiedKeys(front, v) ensures k in UnsatisfiedKeys(modules, v) {
      var d :| d in front && Requirement(d.value, v).Some? && d.key == k;
      assert d in modules;
    }
  }

  /** The bullet doApproverCheckLogic writes for a module: the users it needs,
      separated by ",", or "anyone". */
  function RequirementLine(e: Entry<Owners>): string
  {
    "- " + e.key + ": " + (if e.value.List? then Join(e.value.list, ",") else "anyone") + "\n"
  }

  /** The comment built with += over requireApproveModules. */
  function RequirementsText(reqs: seq<Entry<Owners>>): string
    decreases |reqs|
  {
    if reqs == [] then "" else RequirementsText(reqs[..|reqs| - 1]) + RequirementLine(reqs[|reqs| - 1])
  }

  /** The entries as SimpleCommentFormatter takes them: anyone becomes the single
      user "anyone". */
  function AsUserData(reqs: seq<Entry<Owners>>): (data: seq<PathUserData>)
    ensures |data| == |reqs|
  {
    seq(|reqs|, i requires 0 <= i < |reqs| =>
      PathUserData(reqs[i].key, if reqs[i].value.List? then reqs[i].value.list else ["anyone"]))
  }

  /** The comment doApproverCheckLogic writes is the simple formatter's output. */
  lemma {:induction false} RequirementsTextIsSimpleFormat(reqs: seq<Entry<Owners>>)
    ensures RequirementsText(reqs) == SimpleFormat(AsUserData(reqs))
    decreases |reqs|
  {
    if reqs != [] {
      var n := |reqs| - 1;
      RequirementsTextIsSimpleFormat(reqs[..n]);
      var data := AsUserData(reqs);
      assert data[..n] == AsUserData(reqs[..n]);
      assert Join(["anyone"], ",") == "anyone";
      assert RequirementLine(reqs[n]) == SimpleLine(data[n]);
    }
  }

  /** The outcome the action reports on the head commit. */
  datatype Status = Success | Failure

  /** The comment body: the bullets of the modules that need approval, or the
      all-clear message when there are none. */
  function Body(reqs: seq<Entry<Owners>>): string
  {
    if |reqs| > 0 then RequirementsText(reqs) else "No more approvals are needed"
  }

  /** The head every comment of the action starts with. */
  const Header: string := "Approvals in the following modules are missing:"

  /** A comment on the pull request: its id and its body, which may be missing. */
  datatype Comment = Comment(id: int, body: Option<string>)

  /** What updateComment does: edit the comment with the given id, or add a new one. */
  datatype CommentAction = UpdateComment(id: int, text: string) | AddComment(text: string)

  /** A comment this action wrote: its body starts with the header. */
  predicate IsOwnerComment(c: Comment)
  {
    c.body.Some? && Header <= c.body.value
  }

  /** Index of the first comment the action wrote, or |comments| when there is none. */
  function FindOwnerComment(comments: seq<Comment>): (i: nat)
    ensures i <= |comments|
    ensures forall j :: 0 <= j < i ==> !IsOwnerComment(comments[j])
    ensures i < |comments| ==> IsOwnerComment(comments[i])
  {
    if comments == [] then 0
    else if IsOwnerComment(comments[0]) then 0
    else 1 + FindOwnerComment(comments[1..])
  }

  /** updateComment: the header, a blank line and the body, written over the
      first comment of an earlier run, else posted as a new comment. */
  function UpdateCommentAction(comments: seq<Comment>, body: string): CommentAction
  {
    var message := Header + "\n\n" + body;
    var i := FindOwnerComment(comments);
    if i < |comments| then UpdateComment(comments[i].id, message) else AddComment(message)
  }

  /** The comment written is always recognised as the action's own, so a later
      run edits it instead of adding another: with no comment of an earlier run,
      the comment added now is the one the next run updates. */
  lemma CommentIsFoundAgain(comments: seq<Comment>, body: string, id: int, next: string)
    requires FindOwnerComment(comments) == |comments|
    ensures var a := UpdateCommentAction(comments, body);
      && a == AddComment(Header + "\n\n" + body)
      && UpdateCommentAction(comments + [Comment(id, Some(a.text))], next) == UpdateComment(id, Header + "\n\n" + next)
  {
    var a := UpdateCommentAction(comments, body);
    var all := comments + [Comment(id, Some(a.text))];
    assert forall j :: 0 <= j < |comments| ==> all[j] == comments[j];
    assert IsOwnerComment(all[|comments|]);
    assert FindOwnerComment(all) == |comments|;
  }

  /** An earlier comment of the action is updated in place: the first one wins. */
  lemma EarlierCommentUpdated(comments: seq<Comment>, body: string, i: nat)
    requires i < |comments| && IsOwnerComment(comments[i])
    requires forall j :: 0 <= j < i ==> !IsOwnerComment(comments[j])
    ensures UpdateCommentAction(comments, body) == UpdateComment(comments[i].id, Header + "\n\n" + body)
  {
    assert FindOwnerComment(comments) == i by {
      var k := FindOwnerComment(comments);
      assert !(k < i) && !(i < k);
    }
  }

  /** The status succeeds exactly when every changed file belongs to a module
      that is satisfied. */
  lemma StatusSucceedsIff(repo: Repo, files: seq<string>, v: Votes)
    ensures Requirements(ModuleOwners(repo, files), v) == [] <==>
      forall f :: f in files ==> Requirement(Resolve(repo, f).owners, v).None?
  {
    RequirementsEmpty(ModuleOwners(repo, files), v);
    if forall f :: f in files ==> Requirement(Resolve(repo, f).owners, v).None? {
      FilesCoverModules(repo, files, v);
    }
    if forall e :: e in ModuleOwners(repo, files) ==> Requirement(e.value, v).None? {
      ModulesCoverFiles(repo, files, v);
    }
  }

  /** When every changed file's owners are satisfied, every module is. */
  lemma FilesCoverModules(repo: Repo, files: seq<string>, v: Votes)
    requires forall f :: f in files ==> Requirement(Resolve(repo, f).owners, v).None?
    ensures forall e :: e in ModuleOwners(repo, files) ==> Requirement(e.value, v).None?
  {
    var mo := ModuleOwners(repo, files);
    ModuleOwnersSpec(repo, files);
    forall e | e in mo ensures Requirement(e.value, v).None? {
      var i :| 0 <= i < |mo| && mo[i] == e;
      assert e.key in KeySet(mo);
      var f :| f in files && Resolve(repo, f).path == e.key;
      ResolveByModule(repo, f);
    }
  }

  /** When every module is satisfied, every changed file's owners are. */
  lemma ModulesCoverFiles(repo: Repo, files: seq<string>, v: Votes)
    requires forall e :: e in ModuleOwners(repo, files) ==> Requirement(e.value, v).None?
    ensures forall f :: f in files ==> Requirement(Resolve(repo, f).owners, v).None?
  {
    var mo := ModuleOwners(repo, files);
    ModuleOwnersSpec(repo, files);
    forall f | f in files ensures Requirement(Resolve(repo, f).owners, v).None? {
      var p := Resolve(repo, f).path;
      assert p in ModulesOf(repo, files);
      var i :| 0 <= i < |mo| && mo[i].key == p;
      assert mo[i] in mo;
      ResolveByModule(repo, f);
    }
  }

  lemma ModuleOwnersStep(repo: Repo, files: seq<string>, i: nat)
    requires i < |files|
    ensures ModuleOwners(repo, files[..i + 1])
      == MapSet(ModuleOwners(repo, files[..i]), Resolve(repo, files[i]).path, Resolve(repo, files[i]).owners)
  {
    assert files[..i + 1][..i] == files[..i];
  }

  /** One collectOwners call, seen through its result only. */
  method CollectOne(m: Resolver.OwnersManager, f: string) returns (r: OwnersResult)
    requires m.Valid()
    modifies m`cache, m`requests
    ensures m.Valid()
    ensures r == Resolve(m.repo, f)
  {
    r := m.CollectOwners(f);
  }

  /** The loop over the changed files: collectOwners of each, its module set to
      its owners. */
  method CollectModules(m: Resolver.OwnersManager, files: seq<string>) returns (modules: seq<Entry<Owners>>)
    requires m.Valid()
    modifies m`cache, m`requests
    ensures m.Valid()
    ensures modules == ModuleOwners(m.repo, files)
  {
    modules := [];
    var i := 0;
    while i < |files|
      invariant i <= |files|
      invariant m.Valid()
      invariant modules == ModuleOwners(m.repo, files[..i])
    {
      var result := CollectOne(m, files[i]);
      modules := MapSet(modules, result.path, result.owners);
      ModuleOwnersStep(m.repo, files, i);
      i := i + 1;
    }
    assert files[..i] == files;
  }

  /** The forEach over moduleOwnersMap that fills requireApproveModules. */
  method DecideModules(modules: seq<Entry<Owners>>, v: Votes) returns (reqs: seq<Entry<Owners>>)
    ensures reqs == Requirements(modules, v)
  {
    reqs := [];
    var i := 0;
    while i < |modules|
      invariant i <= |modules|
      invariant reqs == Requirements(modules[..i], v)
    {
      var need := Requirement(modules[i].value, v);
      if need.Some? {
        reqs := MapSet(reqs, modules[i].key, need.value);
      }
      assert modules[..i + 1][..i] == modules[..i];
      i := i + 1;
    }
    assert modules[..i] == modules;
  }

  /** The forEach over requireApproveModules that appends one bullet per module. */
  method BuildComment(reqs: seq<Entry<Owners>>) returns (comment: string)
    ensures comment == RequirementsText(reqs)
  {
    comment := "";
    var i := 0;
    while i < |reqs|
      invariant i <= |reqs|
      invariant comment == RequirementsText(reqs[..i])
    {
      comment := comment + RequirementLine(reqs[i]);
      assert reqs[..i + 1][..i] == reqs[..i];
      i := i + 1;
    }
    assert reqs[..i] == reqs;
  }

  /** doApproverCheckLogic: a fresh resolver over the repository at the head
      commit, the changed files, the reviews and the comments of the pull
      request in; the status and the comment action out. */
  method DoApproverCheckLogic(repo: Repo, files: seq<string>, reviews: seq<Review>, head: string, comments: seq<Comment>)
    returns (status: Status, action: CommentAction)
    ensures var reqs := Requirements(ModuleOwners(repo, files), Tally(reviews, head));
      && (status == Failure <==> |reqs| > 0)
      && action == UpdateCommentAction(comments, Body(reqs))
  {
    var ownersManager := new Resolver.OwnersManager(repo);
    var modules := CollectModules(ownersManager, files);
    var approvers, rejecters := CollectApprovers(reviews, head);
    var reqs := DecideModules(modules, Votes(approvers, rejecters));
    var comment := "";
    if |reqs| > 0 {
      comment := BuildComment(reqs);
      status := Failure;
    } else {
      status := Success;
      comment := "No more approvals are needed";
    }
    action := UpdateCommentAction(comments, comment);
  }
}
