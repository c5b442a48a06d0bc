/** The up/down vote toggle of `PUT /events/:id/vote`, as a function on the
    two vote lists of one event, and the properties the toggle keeps. */
module Votes {
  import opened Common

  /** The `upvotes` and `downvotes` arrays of one event. */
  datatype Ballot = Ballot(up: seq<UserId>, down: seq<UserId>)

  /** The user is in at most one of the two lists. */
  predicate AtMostOne(b: Ballot, u: UserId)
  {
    !(u in b.up && u in b.down)
  }

  /** No user is in both lists. */
  predicate Exclusive(b: Ballot)
  {
    forall u :: u in b.up ==> u !in b.down
  }

  /** The effect of a vote of kind `kind` by user `u`: a vote in the direction
      already held is retracted; any other vote of kind "up" or "down" is
      appended and clears the opposite list; every other kind is ignored. */
  function CastVote(b: Ballot, u: UserId, kind: string): (r: Ballot)
    ensures kind == "up" ==> (u in r.up <==> u !in b.up) && (u in r.down <==> u in b.down && u in b.up)
    ensures kind == "down" ==> (u in r.down <==> u !in b.down) && (u in r.up <==> u in b.up && u in b.down)
    ensures kind != "up" && kind != "down" ==> r == b
    ensures forall v :: v != u ==> (v in r.up <==> v in b.up) && (v in r.down <==> v in b.down)
  {
    if kind == "up" then
      if u in b.up then Ballot(Without(b.up, u), b.down)
      else Ballot(b.up + [u], if u in b.down then Without(b.down, u) else b.down)
    else if kind == "down" then
      if u in b.down then Ballot(b.up, Without(b.down, u))
      else Ballot(if u in b.up then Without(b.up, u) else b.up, b.down + [u])
    else b
  }

  /** Voting in the direction already held removes every occurrence of the
      voter from that list and leaves the other list alone. */
  lemma Retract(b: Ballot, u: UserId, kind: string)
    requires (kind == "up" && u in b.up) || (kind == "down" && u in b.down)
    ensures var r := CastVote(b, u, kind);
      if kind == "up" then u !in r.up && r.up == Without(b.up, u) && r.down == b.down
      else u !in r.down && r.down == Without(b.down, u) && r.up == b.up
  {
  }

  /** Voting in a direction not held appends the voter exactly once, removes
      the voter from the opposite list, and keeps every other id in its
      original order in both lists. */
  lemma {:induction false} Cast(b: Ballot, u: UserId, kind: string)
    requires (kind == "up" && u !in b.up) || (kind == "down" && u !in b.down)
    ensures var r := CastVote(b, u, kind);
      if kind == "up" then
        r.up == b.up + [u] && u !in r.down &&
        Without(r.up, u) == Without(b.up, u) && Without(r.down, u) == Without(b.down, u)
      else
        r.down == b.down + [u] && u !in r.up &&
        Without(r.down, u) == Without(b.down, u) && Without(r.up, u) == Without(b.up, u)
  {
    var r := CastVote(b, u, kind);
    if kind == "up" {
      WithoutAppendSelf(b.up, u);
      if u !in b.down {
        WithoutAbsent(b.down, u);
      }
      WithoutIdempotent(b.down, u);
    } else {
      WithoutAppendSelf(b.down, u);
      if u !in b.up {
        WithoutAbsent(b.up, u);
      }
      WithoutIdempotent(b.up, u);
    }
  }

  lemma WithoutIdempotent(s: seq<UserId>, u: UserId)
    ensures Without(Without(s, u), u) == Without(s, u)
  {
    WithoutAbsent(Without(s, u), u);
  }

  /** A vote of any kind other than "up" or "down" changes neither list. */
  lemma IgnoredKind(b: Ballot, u: UserId, kind: string)
    requires kind != "up" && kind != "down"
    ensures CastVote(b, u, kind) == b
  {
  }

  /** Every user who was in at most one list still is after any vote, the
      voter included. */
  lemma {:induction false} KeepsAtMostOne(b: Ballot, u: UserId, kind: string, v: UserId)
    requires AtMostOne(b, v)
    ensures AtMostOne(CastVote(b, u, kind), v)
  {
    var r := CastVote(b, u, kind);
    assert v in r.up ==> v in b.up || (v == u && kind == "up");
    assert v in r.down ==> v in b.down || (v == u && kind == "down");
  }

  /** Mutual exclusion of the two lists is an invariant of voting. */
  lemma {:induction false} KeepsExclusive(b: Ballot, u: UserId, kind: string)
    requires Exclusive(b)
    ensures Exclusive(CastVote(b, u, kind))
  {
    var r := CastVote(b, u, kind);
    forall v | v in r.up
      ensures v !in r.down
    {
      KeepsAtMostOne(b, u, kind, v);
    }
  }

  /** From a state where the voter is in neither list, two identical votes
      restore both lists exactly. */
  lemma {:induction false} VoteTwiceRestores(b: Ballot, u: UserId, kind: string)
    requires u !in b.up && u !in b.down
    ensures CastVote(CastVote(b, u, kind), u, kind) == b
  {
    WithoutAbsent(b.up, u);
    WithoutAbsent(b.down, u);
    WithoutAppendSelf(b.up, u);
    WithoutAppendSelf(b.down, u);
  }

  /** A second identical vote retracts what the first one set. */
  lemma {:induction false} SecondVoteRetracts(b: Ballot, u: UserId, kind: string)
    requires (kind == "up" && u !in b.up) || (kind == "down" && u !in b.down)
    ensures var r := CastVote(CastVote(b, u, kind), u, kind);
      if kind == "up" then u !in r.up else u !in r.down
  {
  }

  /** "up" then "down" leaves the voter in the down list only. */
  lemma {:induction false} UpThenDown(b: Ballot, u: UserId)
    requires AtMostOne(b, u)
    ensures var r := CastVote(CastVote(b, u, "up"), u, "down");
      u !in r.up && u in r.down
  {
  }
}
