/** The worker that posts each command's result and keeps the unposted ones. */
module CommandWorker {
  import opened Wrappers
  import opened DeviceCommands

  const UNPOSTED_MAX := 64

  /** The server took it, the post failed, or it is gone for good. */
  datatype Reply = Accepted | Failed | Dropped

  /** Results whose post failed, oldest first, by command id. */
  type Results = seq<(string, Outcome)>

  predicate Knows(u: Results, id: string) { exists i :: 0 <= i < |u| && u[i].0 == id }

  predicate Ok(u: Results) {
    && |u| <= UNPOSTED_MAX
    && (forall i, j :: 0 <= i < j < |u| ==> u[i].0 != u[j].0)
    && (forall i :: 0 <= i < |u| ==> u[i].0 != "" && |u[i].1.message| <= MESSAGE_MAX)
  }

  function Find(u: Results, id: string): (i: nat)
    requires Knows(u, id)
    ensures i < |u| && u[i].0 == id
  {
    if u[0].0 == id then 0
    else
      assert Knows(u[1..], id) by { var i :| 0 <= i < |u| && u[i].0 == id; assert u[1..][i - 1] == u[i]; }
      1 + Find(u[1..], id)
  }

  lemma FindIs(u: Results, i: nat)
    requires Ok(u) && i < |u|
    ensures Knows(u, u[i].0) && Find(u, u[i].0) == i
  {}

  function Clipped(o: Outcome): Outcome { o.(message := Clip(o.message)) }

  /** Dropping the oldest until there is room for one more. */
  function Room(u: Results): Results { if |u| < UNPOSTED_MAX then u else u[|u| - UNPOSTED_MAX + 1..] }

  /** A failed result in its place, or at the end with room made for it. */
  function Kept(u: Results, id: string, o: Outcome): (r: Results)
    requires Ok(u) && id != ""
    ensures Ok(r) && Knows(r, id)
  {
    if Knows(u, id) then
      var r := u[Find(u, id) := (id, Clipped(o))];
      assert r[Find(u, id)].0 == id;
      r
    else
      var r := Room(u) + [(id, Clipped(o))];
      assert r[|r| - 1].0 == id;
      r
  }

  function Removed(u: Results, id: string): (r: Results)
    requires Ok(u)
    ensures Ok(r) && !Knows(r, id)
  {
    if Knows(u, id) then u[..Find(u, id)] + u[Find(u, id) + 1..] else u
  }

  /** The unposted results after posting `id`'s: kept in place or at the end when
      the post failed, removed otherwise. */
  function Delivered(u: Results, id: string, o: Outcome, reply: Reply): (r: Results)
    requires Ok(u)
    ensures Ok(r)
    ensures id != "" ==> (Knows(r, id) <==> reply.Failed?)
  {
    if id == "" then u else if reply.Failed? then Kept(u, id, o) else Removed(u, id)
  }

  /** What a round of retries leaves: those that failed again, in order. */
  function StillFailing(u: Results, replies: seq<Reply>): (r: Results)
    requires |replies| == |u|
    ensures |r| <= |u|
    decreases |u|
  {
    if u == [] then [] else (if replies[0].Failed? then [u[0]] else []) + StillFailing(u[1..], replies[1..])
  }

  class Worker {
    var unposted: Results

    ghost predicate Valid()
      reads this
    {
      Ok(unposted)
    }

    constructor ()
      ensures Valid() && unposted == []
    {
      unposted := [];
    }

    method DeliverDeviceResult(id: string, outcome: Outcome, reply: Reply)
      requires Valid()
      modifies this
      ensures Valid() && unposted == Delivered(old(unposted), id, outcome, reply)
    {
      if id == "" {
        return;
      }
      ghost var was := unposted;
      ghost var next := Delivered(was, id, outcome, reply);
      var known := Knows(unposted, id);
      if reply.Failed? {
        if known {
          unposted := unposted[Find(unposted, id) := (id, Clipped(outcome))];
        } else {
          while |unposted| >= UNPOSTED_MAX
            invariant |unposted| <= |was| && unposted == was[|was| - |unposted|..]
            invariant |unposted| >= UNPOSTED_MAX - 1 || unposted == was
          {
            unposted := unposted[1..];
          }
          unposted := unposted + [(id, Clipped(outcome))];
        }
      } else if known {
        var i := Find(unposted, id);
        unposted := unposted[..i] + unposted[i + 1..];
      }
      assert unposted == next;
    }

    /** The retry of one result of the copy. */
    method RetryOne(copy: Results, replies: seq<Reply>, i: nat, ghost kept: Results) returns (ghost still: Results)
      requires Valid() && |replies| == |copy| && i < |copy| && unposted == kept + copy[i..]
      modifies this
      ensures Valid() && unposted == still + copy[i + 1..]
      ensures still + StillFrom(copy, replies, i + 1) == kept + StillFrom(copy, replies, i)
    {
      OneRetry(unposted, kept, copy, replies, i);
      DeliverDeviceResult(copy[i].0, copy[i].1, replies[i]);
      still := kept + if replies[i].Failed? then [copy[i]] else [];
    }

    /** Posts every unposted result again, walking a copy of the list. */
    method RetryUnposted(replies: seq<Reply>)
      requires Valid() && |replies| == |unposted|
      modifies this
      ensures Valid() && unposted == StillFailing(old(unposted), replies)
    {
      var copy := unposted;
      ghost var kept: Results := [];
      WholeList(copy, replies);
      for i := 0 to |copy|
        invariant Valid() && unposted == kept + copy[i..]
        invariant kept + StillFrom(copy, replies, i) == StillFrom(copy, replies, 0)
      {
        kept := RetryOne(copy, replies, i, kept);
      }
      assert copy[|copy|..] == [] && kept + [] == kept;
    }
  }

  function StillFrom(u: Results, replies: seq<Reply>, i: nat): Results
    requires |replies| == |u| && i <= |u|
  {
    StillFailing(u[i..], replies[i..])
  }

  lemma WholeList(u: Results, replies: seq<Reply>)
    requires |replies| == |u|
    ensures u[0..] == u && StillFrom(u, replies, 0) == StillFailing(u, replies)
    ensures StillFrom(u, replies, |u|) == []
  {
    assert u[0..] == u && replies[0..] == replies;
  }

  lemma FailingStep(u: Results, replies: seq<Reply>, i: nat)
    requires |replies| == |u| && i < |u|
    ensures StillFailing(u[i..], replies[i..]) ==
      (if replies[i].Failed? then [u[i]] else []) + StillFailing(u[i + 1..], replies[i + 1..])
  {
    assert u[i..][1..] == u[i + 1..] && replies[i..][1..] == replies[i + 1..];
  }

  /** Posting an unposted result again leaves the others where they are. */
  lemma KeptInPlace(u: Results, i: nat, reply: Reply)
    requires Ok(u) && i < |u|
    ensures Delivered(u, u[i].0, u[i].1, reply) == if reply.Failed? then u else u[..i] + u[i + 1..]
  {
    FindIs(u, i);
  }

  /** One retry in the walk over the copy: what failed before, then the rest. */
  lemma OneRetry(u: Results, kept: Results, copy: Results, replies: seq<Reply>, i: nat)
    requires Ok(u) && |replies| == |copy| && i < |copy| && u == kept + copy[i..]
    ensures var still := kept + if replies[i].Failed? then [copy[i]] else [];
      && Delivered(u, copy[i].0, copy[i].1, replies[i]) == still + copy[i + 1..]
      && still + StillFrom(copy, replies, i + 1) == kept + StillFrom(copy, replies, i)
  {
    RetryInPlace(u, kept, copy, replies[i], i);
    FailingStep(copy, replies, i);
    Regroup(kept, if replies[i].Failed? then [copy[i]] else [], StillFrom(copy, replies, i + 1));
  }

  lemma RetryInPlace(u: Results, kept: Results, copy: Results, reply: Reply, i: nat)
    requires Ok(u) && i < |copy| && u == kept + copy[i..]
    ensures Delivered(u, copy[i].0, copy[i].1, reply) == (kept + if reply.Failed? then [copy[i]] else []) + copy[i + 1..]
  {
    Around(kept, copy, i);
    KeptInPlace(u, |kept|, reply);
  }

  lemma Around(kept: Results, copy: Results, i: nat)
    requires i < |copy|
    ensures var u := kept + copy[i..]; var at := |kept|;
      u[at] == copy[i] && u[..at] == kept && u[at + 1..] == copy[i + 1..] && u == (kept + [copy[i]]) + copy[i + 1..]
  {}

  // ---- No result is lost early --------------------------------------------------------

  /** One post of the worker: a command's result. */
  datatype Post = Post(id: string, outcome: Outcome, reply: Reply)

  function After(u: Results, posts: seq<Post>): (r: Results)
    requires Ok(u)
    ensures Ok(r)
    decreases |posts|
  {
    if posts == [] then u else After(Delivered(u, posts[0].id, posts[0].outcome, posts[0].reply), posts[1..])
  }

  /** Whether a post puts a result at the end of the list. */
  predicate Adds(u: Results, p: Post) { p.id != "" && p.reply.Failed? && !Knows(u, p.id) }

  /** How many posts of the run do. */
  function NewOnes(u: Results, posts: seq<Post>): (n: nat)
    requires Ok(u)
    decreases |posts|
  {
    if posts == [] then 0
    else
      var p := posts[0];
      (if Adds(u, p) then 1 else 0) + NewOnes(Delivered(u, p.id, p.outcome, p.reply), posts[1..])
  }

  /** Places from the result at `at` to the end once `p` has been posted, counting
      its own; past 64 there is none for it. */
  function Needed(u: Results, at: nat, p: Post): nat
    requires at < |u|
  {
    |u| - at + if Adds(u, p) then 1 else 0
  }

  /** Where it is then, if it was not pushed out. */
  function There(u: Results, at: nat, p: Post): (there: nat)
    requires Ok(u) && at < |u| && p.id != u[at].0 && Needed(u, at, p) <= UNPOSTED_MAX
    ensures var next := Delivered(u, p.id, p.outcome, p.reply); there < |next| && next[there] == u[at]
  {
    if Adds(u, p) && |u| == UNPOSTED_MAX then at - 1
    else if p.id != "" && !p.reply.Failed? && Knows(u, p.id) && Find(u, p.id) < at then at - 1
    else at
  }

  /** The most places ever needed from it to the end. */
  function Peak(u: Results, at: nat, posts: seq<Post>): nat
    requires Ok(u) && at < |u| && OthersOnly(posts, u[at].0)
    decreases |posts|
  {
    if posts == [] then |u| - at
    else
      var p, need := posts[0], Needed(u, at, posts[0]);
      if need > UNPOSTED_MAX then need
      else
        var rest := Peak(Delivered(u, p.id, p.outcome, p.reply), There(u, at, p), posts[1..]);
        if need < rest then rest else need
  }

  predicate OthersOnly(posts: seq<Post>, id: string) { forall i :: 0 <= i < |posts| ==> posts[i].id != id }

  /** A post either leaves the result there or, when there is no place for it,
      pushes it out. */
  lemma Moved(u: Results, at: nat, p: Post)
    requires Ok(u) && at < |u| && p.id != u[at].0
    ensures var next := Delivered(u, p.id, p.outcome, p.reply);
      if Needed(u, at, p) > UNPOSTED_MAX then !Knows(next, u[at].0)
      else |next| - There(u, at, p) <= Needed(u, at, p)
           && (p.reply.Failed? ==> |next| - There(u, at, p) == Needed(u, at, p))
  {
    if Needed(u, at, p) > UNPOSTED_MAX {
      var next := Delivered(u, p.id, p.outcome, p.reply);
      assert at == 0 && next == u[1..] + [(p.id, Clipped(p.outcome))];
    }
  }

  /** A result not in the list stays out of it until its own next post. */
  lemma {:induction false} StaysOut(u: Results, id: string, posts: seq<Post>)
    requires Ok(u) && !Knows(u, id) && OthersOnly(posts, id)
    ensures !Knows(After(u, posts), id)
    decreases |posts|
  {
    if posts != [] {
      var p := posts[0];
      OneOut(u, id, p);
      StaysOut(Delivered(u, p.id, p.outcome, p.reply), id, posts[1..]);
    }
  }

  lemma OneOut(u: Results, id: string, p: Post)
    requires Ok(u) && !Knows(u, id) && p.id != id
    ensures !Knows(Delivered(u, p.id, p.outcome, p.reply), id)
  {}

  /** Exactly when an unposted result is kept as it is until its own next post:
      when never more than 64 places are needed from it to the end of the list. */
  lemma {:induction false} KeptExactly(u: Results, at: nat, posts: seq<Post>)
    requires Ok(u) && at < |u| && OthersOnly(posts, u[at].0)
    ensures u[at] in After(u, posts) <==> Peak(u, at, posts) <= UNPOSTED_MAX
    decreases |posts|
  {
    if posts != [] {
      var p := posts[0];
      var next := Delivered(u, p.id, p.outcome, p.reply);
      assert p.id != u[at].0;
      Moved(u, at, p);
      if Needed(u, at, p) > UNPOSTED_MAX {
        StaysOut(next, u[at].0, posts[1..]);
      } else {
        KeptExactly(next, There(u, at, p), posts[1..]);
      }
    }
  }

  /** So it is kept while those behind it and the new ones together are fewer than
      64; a result that is in the list and fails again takes no place. */
  lemma {:induction false} KeptUntilPosted(u: Results, at: nat, posts: seq<Post>)
    requires Ok(u) && at < |u| && OthersOnly(posts, u[at].0)
    requires |u| - 1 - at + NewOnes(u, posts) < UNPOSTED_MAX
    ensures u[at] in After(u, posts)
    decreases |posts|
  {
    if posts != [] {
      var p := posts[0];
      assert p.id != u[at].0;
      Moved(u, at, p);
      KeptUntilPosted(Delivered(u, p.id, p.outcome, p.reply), There(u, at, p), posts[1..]);
    }
  }

  /** And while the server is down, every post failing, that is exact: it is
      dropped as soon as there are 64. */
  lemma {:induction false} DroppedExactly(u: Results, at: nat, posts: seq<Post>)
    requires Ok(u) && at < |u| && OthersOnly(posts, u[at].0) && forall i :: 0 <= i < |posts| ==> posts[i].reply.Failed?
    ensures u[at] in After(u, posts) <==> |u| - 1 - at + NewOnes(u, posts) < UNPOSTED_MAX
    decreases |posts|
  {
    if posts != [] {
      var p := posts[0];
      var next := Delivered(u, p.id, p.outcome, p.reply);
      assert p.id != u[at].0;
      Moved(u, at, p);
      if Needed(u, at, p) > UNPOSTED_MAX {
        StaysOut(next, u[at].0, posts[1..]);
      } else {
        DroppedExactly(next, There(u, at, p), posts[1..]);
      }
    }
  }
}
