/**
 * The member eligibility filter of backend/data.py.
 *
 * A guild member is a record of the flags the filter reads. The source compares a
 * member with `guild.owner` by the member's identity, so the owner is kept as an
 * optional user id (`guild.owner` is `None` when the owner is not cached).
 */
module Data {
  import opened Options

  type UserId = nat

  /** The presence values a member can report. */
  datatype Status = Online | Idle | DoNotDisturb | Offline | Invisible

  datatype Member = Member(
    id: UserId,
    displayName: string,
    bot: bool,
    status: Status,
    administrator: bool)

  datatype Guild = Guild(members: seq<Member>, owner: Option<UserId>)

  /** Not a bot and not offline. */
  predicate IsOnline(m: Member) {
    !m.bot && m.status != Offline
  }

  predicate IsOwner(g: Guild, m: Member) {
    g.owner == Some(m.id)
  }

  /** Not a bot, not offline, not the guild owner and not an administrator. */
  predicate IsCandidate(g: Guild, m: Member) {
    !m.bot && m.status != Offline && !IsOwner(g, m) && !m.administrator
  }

  /** `a` is `b` with some elements removed and the rest kept in order. */
  predicate IsSubsequence<T(==)>(a: seq<T>, b: seq<T>)
    decreases |b|
  {
    if a == [] then true
    else if b == [] then false
    else if a[0] == b[0] then IsSubsequence(a[1..], b[1..])
    else IsSubsequence(a, b[1..])
  }

  /** `candidate_members`: the guild's members that may be picked, in guild order. */
  function CandidateMembers(g: Guild): (r: seq<Member>)
    ensures forall m :: m in r ==> m in g.members && IsCandidate(g, m)
    ensures |r| <= |g.members|
    decreases |g.members|
  {
    if g.members == [] then []
    else
      var rest := CandidateMembers(g.(members := g.members[1..]));
      if IsCandidate(g, g.members[0]) then [g.members[0]] + rest else rest
  }

  /** `online_members`: the guild's non-bot, non-offline members, in guild order. */
  function OnlineMembers(g: Guild): (r: seq<Member>)
    ensures forall m :: m in r ==> m in g.members && IsOnline(m)
    ensures |r| <= |g.members|
    decreases |g.members|
  {
    if g.members == [] then []
    else
      var rest := OnlineMembers(g.(members := g.members[1..]));
      if IsOnline(g.members[0]) then [g.members[0]] + rest else rest
  }

  /** Every member that satisfies the four conditions is a candidate. */
  lemma {:induction false} CandidateMembersComplete(g: Guild, m: Member)
    requires m in g.members && IsCandidate(g, m)
    ensures m in CandidateMembers(g)
    decreases |g.members|
  {
    if g.members[0] != m {
      CandidateMembersComplete(g.(members := g.members[1..]), m);
    }
  }

  /** Candidates keep the relative order of `guild.members`. */
  lemma {:induction false} CandidateMembersInOrder(g: Guild)
    ensures IsSubsequence(CandidateMembers(g), g.members)
    decreases |g.members|
  {
    if g.members != [] {
      var tail := g.(members := g.members[1..]);
      CandidateMembersInOrder(tail);
      var rest := CandidateMembers(tail);
      if !IsCandidate(g, g.members[0]) && rest != [] {
        // rest[0] is a candidate, so it cannot be the rejected head
        assert rest[0] in rest;
      }
    }
  }

  /** Nobody eligible is an ordinary, empty answer: exactly when no member qualifies. */
  lemma NoCandidates(g: Guild)
    ensures CandidateMembers(g) == [] <==> forall m :: m in g.members ==> !IsCandidate(g, m)
  {
    if CandidateMembers(g) == [] {
      forall m | m in g.members ensures !IsCandidate(g, m) {
        if IsCandidate(g, m) {
          CandidateMembersComplete(g, m);
        }
      }
    } else {
      var r := CandidateMembers(g);
      assert r[0] in r;
    }
  }

  /** Every non-bot, non-offline member is reported online. */
  lemma {:induction false} OnlineMembersComplete(g: Guild, m: Member)
    requires m in g.members && IsOnline(m)
    ensures m in OnlineMembers(g)
    decreases |g.members|
  {
    if g.members[0] != m {
      OnlineMembersComplete(g.(members := g.members[1..]), m);
    }
  }

  /** Online members keep the relative order of `guild.members`. */
  lemma {:induction false} OnlineMembersInOrder(g: Guild)
    ensures IsSubsequence(OnlineMembers(g), g.members)
    decreases |g.members|
  {
    if g.members != [] {
      var tail := g.(members := g.members[1..]);
      OnlineMembersInOrder(tail);
      var rest := OnlineMembers(tail);
      if !IsOnline(g.members[0]) && rest != [] {
        assert rest[0] in rest;
      }
    }
  }

  /** The candidates are the online members with the owner and administrators taken out, in order. */
  lemma {:induction false} CandidatesAreOnline(g: Guild)
    ensures IsSubsequence(CandidateMembers(g), OnlineMembers(g))
    ensures forall m :: m in CandidateMembers(g) ==> m in OnlineMembers(g)
    decreases |g.members|
  {
    if g.members != [] {
      var tail := g.(members := g.members[1..]);
      CandidatesAreOnline(tail);
      var cs, os := CandidateMembers(tail), OnlineMembers(tail);
      var head := g.members[0];
      if IsOnline(head) && !IsCandidate(g, head) && cs != [] {
        assert cs[0] in cs;
        assert IsCandidate(tail, cs[0]);
      }
      SubsequenceMembers(CandidateMembers(g), OnlineMembers(g));
    }
  }

  /**
   * Each member value occurs in the candidates exactly as often as in the guild when
   * it is a candidate, and not at all otherwise: with order, this fixes the result
   * even when `guild.members` repeats a member.
   */
  lemma {:induction false} CandidateMembersCount(g: Guild, m: Member)
    ensures multiset(CandidateMembers(g))[m] == if IsCandidate(g, m) then multiset(g.members)[m] else 0
    decreases |g.members|
  {
    if g.members != [] {
      var tail := g.(members := g.members[1..]);
      CandidateMembersCount(tail, m);
      assert g.members == [g.members[0]] + tail.members;
    }
  }

  /** Each member value occurs in the online members as often as in the guild when online, else never. */
  lemma {:induction false} OnlineMembersCount(g: Guild, m: Member)
    ensures multiset(OnlineMembers(g))[m] == if IsOnline(m) then multiset(g.members)[m] else 0
    decreases |g.members|
  {
    if g.members != [] {
      var tail := g.(members := g.members[1..]);
      OnlineMembersCount(tail, m);
      assert g.members == [g.members[0]] + tail.members;
    }
  }

  lemma {:induction false} SubsequenceMembers<T>(a: seq<T>, b: seq<T>)
    requires IsSubsequence(a, b)
    ensures forall x :: x in a ==> x in b
    decreases |b|
  {
    if a != [] {
      if a[0] == b[0] {
        SubsequenceMembers(a[1..], b[1..]);
        assert forall x :: x in a ==> x == a[0] || x in a[1..];
      } else {
        SubsequenceMembers(a, b[1..]);
      }
    }
  }
}
