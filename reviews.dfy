/** collectApprovers of src/index.ts: one pass over the pull request's reviews in
    the order GitHub lists them, keeping the users who approved the head commit
    and the users who requested changes. */
module Reviews {
  import opened Ownership

  /** The review states the fold tells apart; every other state (COMMENTED,
      DISMISSED, PENDING, ...) is Other. */
  datatype ReviewState = Approved | ChangesRequested | Other(name: string)

  /** A review: its author (None when GitHub reports a deleted user), its state
      and the commit it was submitted on. */
  datatype Review = Review(user: Option<string>, state: ReviewState, commitId: string)

  /** The two JavaScript Sets of the fold, as the sequences of their elements in
      insertion order. */
  datatype Votes = Votes(approvers: seq<string>, rejecters: seq<string>)

  /** No element occurs twice. */
  predicate Distinct(s: seq<string>)
  {
    forall i, j :: 0 <= i < j < |s| ==> s[i] != s[j]
  }

  /** Set.prototype.add: a new element goes last, a present one stays where it is. */
  function Add(s: seq<string>, x: string): (r: seq<string>)
    ensures forall y :: y in r <==> y in s || y == x
    ensures Distinct(s) ==> Distinct(r)
  {
    if x in s then s else s + [x]
  }

  /** Set.prototype.delete: the element goes, the others keep their order. */
  function Delete(s: seq<string>, x: string): (r: seq<string>)
    ensures forall y :: y in r <==> y in s && y != x
    ensures Distinct(s) ==> Distinct(r)
    ensures |r| <= |s|
  {
    if s == [] then []
    else
      var rest := Delete(s[1..], x);
      DistinctTail(s);
      DistinctCons(s[0], rest);
      (if s[0] == x then [] else [s[0]]) + rest
  }

  lemma DistinctTail(s: seq<string>)
    requires s != []
    ensures Distinct(s) ==> Distinct(s[1..]) && s[0] !in s[1..]
  {
    if Distinct(s) {
      assert forall i :: 0 <= i < |s| - 1 ==> s[1..][i] == s[i + 1];
    }
  }

  lemma DistinctCons(x: string, s: seq<string>)
    ensures Distinct(s) && x !in s ==> Distinct([x] + s)
  {
    if Distinct(s) && x !in s {
      var r := [x] + s;
      forall i, j | 0 <= i < j < |r| ensures r[i] != r[j] {
        assert r[j] == s[j - 1];
        if i > 0 {
          assert r[i] == s[i - 1];
        }
      }
    }
  }

  /** One iteration of the forEach: an approval of the head commit moves its
      author to the approvers, a change request moves its author to the
      rejecters, anything else changes nothing. */
  function Step(v: Votes, r: Review, head: string): Votes
  {
    if r.user.None? then v
    else if r.state == Approved && r.commitId == head then
      Votes(Add(v.approvers, r.user.value), Delete(v.rejecters, r.user.value))
    else if r.state == ChangesRequested then
      Votes(Delete(v.approvers, r.user.value), Add(v.rejecters, r.user.value))
    else v
  }

  /** The fold over reviews, from empty sets, in list order. */
  function Tally(reviews: seq<Review>, head: string): Votes
    decreases |reviews|
  {
    if reviews == [] then Votes([], [])
    else Step(Tally(reviews[..|reviews| - 1], head), reviews[|reviews| - 1], head)
  }

  /** collectApprovers: the loop over the reviews computes the fold. */
  method CollectApprovers(reviews: seq<Review>, head: string) returns (approvers: seq<string>, rejecters: seq<string>)
    ensures Votes(approvers, rejecters) == Tally(reviews, head)
  {
    approvers := [];
    rejecters := [];
    var i := 0;
    while i < |reviews|
      invariant i <= |reviews|
      invariant Votes(approvers, rejecters) == Tally(reviews[..i], head)
    {
      var review := reviews[i];
      if review.user != None {
        var key := review.user.value;
        if review.state == Approved && review.commitId == head {
          approvers := Add(approvers, key);
          rejecters := Delete(rejecters, key);
        } else if review.state == ChangesRequested {
          approvers := Delete(approvers, key);
          rejecters := Add(rejecters, key);
        }
      }
      assert reviews[..i + 1][..i] == reviews[..i];
      i := i + 1;
    }
    assert reviews[..i] == reviews;
  }

  /** What a user's reviews decide. */
  datatype Verdict = Approve | Reject

  /** The last review of user that counts: an approval of the head commit or a
      change request on any commit. None when there is no such review. */
  function LastVerdict(reviews: seq<Review>, head: string, user: string): Option<Verdict>
    decreases |reviews|
  {
    if reviews == [] then None
    else
      var r := reviews[|reviews| - 1];
      if r.user == Some(user) && r.state == Approved && r.commitId == head then Some(Approve)
      else if r.user == Some(user) && r.state == ChangesRequested then Some(Reject)
      else LastVerdict(reviews[..|reviews| - 1], head, user)
  }

  /** The last counting review of each user wins: a user is an approver exactly
      when it approved the head commit, a rejecter exactly when it requested
      changes, and neither when it has no counting review. So the two sets are
      disjoint. */
  lemma {:induction false} TallyIsLastVerdict(reviews: seq<Review>, head: string, user: string)
    ensures user in Tally(reviews, head).approvers <==> LastVerdict(reviews, head, user) == Some(Approve)
    ensures user in Tally(reviews, head).rejecters <==> LastVerdict(reviews, head, user) == Some(Reject)
    decreases |reviews|
  {
    if reviews != [] {
      TallyIsLastVerdict(reviews[..|reviews| - 1], head, user);
    }
  }

  /** Each set of the fold is duplicate-free and no user is in both. */
  lemma {:induction false} TallyWellFormed(reviews: seq<Review>, head: string)
    ensures Distinct(Tally(reviews, head).approvers)
    ensures Distinct(Tally(reviews, head).rejecters)
    ensures forall u :: u in Tally(reviews, head).approvers ==> u !in Tally(reviews, head).rejecters
    decreases |reviews|
  {
    if reviews != [] {
      TallyWellFormed(reviews[..|reviews| - 1], head);
    }
  }

  /** A review that does not count changes nothing: one by a deleted user, an
      approval of an older commit, or any other state. */
  lemma Ignored(reviews: seq<Review>, r: Review, head: string)
    requires r.user.None? || (r.state == Approved && r.commitId != head) || r.state.Other?
    ensures Tally(reviews + [r], head) == Tally(reviews, head)
  {
    assert (reviews + [r])[..|reviews|] == reviews;
  }

  /** A later change request overrides an earlier approval of the same user,
      and a later approval of the head commit overrides an earlier change request. */
  lemma LaterReviewWins(reviews: seq<Review>, r: Review, head: string)
    requires r.user.Some?
    ensures r.state == ChangesRequested ==>
      r.user.value in Tally(reviews + [r], head).rejecters && r.user.value !in Tally(reviews + [r], head).approvers
    ensures r.state == Approved && r.commitId == head ==>
      r.user.value in Tally(reviews + [r], head).approvers && r.user.value !in Tally(reviews + [r], head).rejecters
  {
    assert (reviews + [r])[..|reviews|] == reviews;
  }
}
