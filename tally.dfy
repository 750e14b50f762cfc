// The results tally of the admin and voter result pages: total votes, the
// highest count and the winners. A candidate's `vote_count` may be missing;
// `vote_count || 0` reads a missing count as 0.

module Tally {
  import opened Common

  datatype Candidate = Candidate(id: int, nom: Option<string>, voteCount: Option<int>)

  /** `c.vote_count || 0`. */
  function Count(c: Candidate): int {
    if c.voteCount.Some? then c.voteCount.value else 0
  }

  /** `candidates.reduce((sum, c) => sum + (c.vote_count || 0), 0)`. */
  function TotalVotes(cs: seq<Candidate>): int {
    if cs == [] then 0 else Count(cs[0]) + TotalVotes(cs[1..])
  }

  /** The total over two lists is the sum of their totals. */
  lemma {:induction false} TotalVotesAppend(a: seq<Candidate>, b: seq<Candidate>)
    ensures TotalVotes(a + b) == TotalVotes(a) + TotalVotes(b)
  {
    if a != [] {
      assert (a + b)[0] == a[0];
      assert (a + b)[1..] == a[1..] + b;
      TotalVotesAppend(a[1..], b);
    } else {
      assert a + b == b;
    }
  }

  /** With no negative count, no candidate has more votes than the total. */
  lemma {:induction false} CountAtMostTotal(cs: seq<Candidate>, i: int)
    requires forall j :: 0 <= j < |cs| ==> Count(cs[j]) >= 0
    requires 0 <= i < |cs|
    ensures Count(cs[i]) <= TotalVotes(cs)
  {
    if i == 0 {
      TotalNonNegative(cs[1..]);
    } else {
      CountAtMostTotal(cs[1..], i - 1);
    }
  }

  lemma {:induction false} TotalNonNegative(cs: seq<Candidate>)
    requires forall j :: 0 <= j < |cs| ==> Count(cs[j]) >= 0
    ensures TotalVotes(cs) >= 0
  {
    if cs != [] {
      TotalNonNegative(cs[1..]);
    }
  }

  /** An integer or -Infinity, the value of `Math.max()` over no arguments. */
  datatype Extended = NegInf | Fin(n: int)

  /** `Math.max(...candidates.map(c => c.vote_count || 0))` on the admin
      page: -Infinity for no candidates, since `[] || [0]` keeps `[]`. */
  function MaxVotesAdmin(cs: seq<Candidate>): (m: Extended)
    ensures cs == [] <==> m == NegInf
    ensures m.Fin? ==> forall i :: 0 <= i < |cs| ==> Count(cs[i]) <= m.n
    ensures m.Fin? ==> exists i :: 0 <= i < |cs| && Count(cs[i]) == m.n
  {
    if cs == [] then NegInf
    else
      var rest := MaxVotesAdmin(cs[1..]);
      if rest.NegInf? || Count(cs[0]) >= rest.n then Fin(Count(cs[0]))
      else
        assert exists i :: 1 <= i < |cs| && Count(cs[i]) == rest.n by {
          var k :| 0 <= k < |cs[1..]| && Count(cs[1..][k]) == rest.n;
          assert cs[k + 1] == cs[1..][k];
        }
        rest
  }

  /** Winners on the admin page: `(c.vote_count || 0) === maxVotes && maxVotes > 0`. */
  predicate IsWinnerAdmin(c: Candidate, m: Extended) {
    m.Fin? && Count(c) == m.n && m.n > 0
  }

  function WinnersAdmin(cs: seq<Candidate>): (w: seq<Candidate>)
    ensures forall i :: 0 <= i < |w| ==> w[i] in cs && IsWinnerAdmin(w[i], MaxVotesAdmin(cs))
    ensures forall i :: 0 <= i < |cs| && IsWinnerAdmin(cs[i], MaxVotesAdmin(cs)) ==> cs[i] in w
  {
    var m := MaxVotesAdmin(cs);
    Filter(cs, (c: Candidate) => IsWinnerAdmin(c, m))
  }

  /** `Math.max(...counts, 0)` on the voter page: never below 0. */
  function MaxVotesUser(cs: seq<Candidate>): (m: int)
    ensures m >= 0
    ensures forall i :: 0 <= i < |cs| ==> Count(cs[i]) <= m
    ensures m == 0 || exists i :: 0 <= i < |cs| && Count(cs[i]) == m
  {
    if cs == [] then 0
    else
      var rest := MaxVotesUser(cs[1..]);
      if Count(cs[0]) >= rest then Count(cs[0])
      else
        assert rest == 0 || exists i :: 1 <= i < |cs| && Count(cs[i]) == rest by {
          if rest != 0 {
            var k :| 0 <= k < |cs[1..]| && Count(cs[1..][k]) == rest;
            assert cs[k + 1] == cs[1..][k];
          }
        }
        rest
  }

  /** Winners on the voter page: `c.vote_count === maxVotes && maxVotes > 0`;
      a missing count never equals a number. */
  predicate IsWinnerUser(c: Candidate, m: int) {
    c.voteCount == Some(m) && m > 0
  }

  function WinnersUser(cs: seq<Candidate>): (w: seq<Candidate>)
    ensures forall i :: 0 <= i < |w| ==> w[i] in cs && IsWinnerUser(w[i], MaxVotesUser(cs))
    ensures forall i :: 0 <= i < |cs| && IsWinnerUser(cs[i], MaxVotesUser(cs)) ==> cs[i] in w
  {
    var m := MaxVotesUser(cs);
    Filter(cs, (c: Candidate) => IsWinnerUser(c, m))
  }

  /** The two maxima agree whenever the admin one is positive, and the voter
      one is 0 otherwise. */
  lemma MaxVotesRelate(cs: seq<Candidate>)
    ensures var a := MaxVotesAdmin(cs);
            var u := MaxVotesUser(cs);
            (a.Fin? && a.n > 0 ==> u == a.n) && (!(a.Fin? && a.n > 0) ==> u == 0)
  {
    var a := MaxVotesAdmin(cs);
    var u := MaxVotesUser(cs);
    if u != 0 {
      var i :| 0 <= i < |cs| && Count(cs[i]) == u;
      assert a.Fin?;
    }
    if a.Fin? && a.n > 0 {
      var i :| 0 <= i < |cs| && Count(cs[i]) == a.n;
    }
  }

  /** Both pages name the same winners, in the same order. */
  lemma WinnersAgree(cs: seq<Candidate>)
    ensures WinnersUser(cs) == WinnersAdmin(cs)
  {
    MaxVotesRelate(cs);
    var a := MaxVotesAdmin(cs);
    var u := MaxVotesUser(cs);
    FilterSamePredicate(cs, (c: Candidate) => IsWinnerUser(c, u), (c: Candidate) => IsWinnerAdmin(c, a));
  }

  /** A winner has at least as many votes as any candidate, and a positive
      count. */
  lemma WinnersDominate(cs: seq<Candidate>, i: int, j: int)
    requires 0 <= i < |WinnersAdmin(cs)| && 0 <= j < |cs|
    ensures Count(cs[j]) <= Count(WinnersAdmin(cs)[i])
    ensures Count(WinnersAdmin(cs)[i]) > 0
  {
  }

  /** Candidates tied at a positive maximum are all winners. */
  lemma TiesAllWin(cs: seq<Candidate>, i: int, j: int)
    requires 0 <= i < |cs| && 0 <= j < |cs| && i != j
    requires Count(cs[i]) == Count(cs[j]) > 0
    requires forall k :: 0 <= k < |cs| ==> Count(cs[k]) <= Count(cs[i])
    ensures cs[i] in WinnersAdmin(cs) && cs[j] in WinnersAdmin(cs)
  {
    var m := MaxVotesAdmin(cs);
    var k :| 0 <= k < |cs| && Count(cs[k]) == m.n;
  }

  /** Without a positive count there is no winner; in particular none for an
      empty list, where the maximum is -Infinity. */
  lemma NoWinnersWithoutVotes(cs: seq<Candidate>)
    requires forall k :: 0 <= k < |cs| ==> Count(cs[k]) <= 0
    ensures WinnersAdmin(cs) == [] && WinnersUser(cs) == []
    ensures cs == [] ==> MaxVotesAdmin(cs) == NegInf
  {
    WinnersAgree(cs);
  }

  /** With some positive count there is at least one winner. */
  lemma SomeWinnerWithVotes(cs: seq<Candidate>, k: int)
    requires 0 <= k < |cs| && Count(cs[k]) > 0
    ensures |WinnersAdmin(cs)| > 0
  {
    var m := MaxVotesAdmin(cs);
    var i :| 0 <= i < |cs| && Count(cs[i]) == m.n;
    assert cs[i] in WinnersAdmin(cs);
  }
}
