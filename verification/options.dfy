/**
 * The multiple-choice options of the quiz and of the time attack: the
 * answer first, then wrong answers `ans + offset` (offset drawn from
 * [-5, 5]) kept only when positive and not already listed, until four
 * options are held.
 */
module Options {
  import opened Collections
  import opened Draws

  /** The number of options shown for a question. */
  const OptionCount: int := 4

  /** `Math.floor(Math.random() * 11) - 5`: an offset in [-5, 5]. */
  function Offset(u: real): (d: int)
    requires IsRandom(u)
    ensures -5 <= d <= 5
  {
    Below(u, 11) - 5
  }

  /**
   * One round of the loop body: the candidate `ans + offset` is appended
   * when it is positive and not yet listed.
   */
  function Step(opts: seq<int>, ans: int, u: real): (next: seq<int>)
    requires IsRandom(u)
    ensures |opts| <= |next| <= |opts| + 1 && next[..|opts|] == opts
    ensures |next| == |opts| + 1 ==> 0 < next[|opts|] && -5 <= next[|opts|] - ans <= 5 && next[|opts|] !in opts
  {
    var fake := ans + Offset(u);
    if fake > 0 && fake !in opts then opts + [fake] else opts
  }

  /**
   * The option list after the loop body has run on each draw in turn,
   * stopping as soon as four options are held. The list only grows, and
   * every option it adds is positive, within 5 of the answer and new.
   */
  function Fill(opts: seq<int>, ans: int, draws: seq<real>): (r: seq<int>)
    requires AllRandom(draws)
    ensures |opts| <= |r| && r[..|opts|] == opts
    ensures |opts| >= OptionCount ==> r == opts
    ensures |opts| <= OptionCount ==> |r| <= OptionCount
    ensures forall k :: |opts| <= k < |r| ==> 0 < r[k] && -5 <= r[k] - ans <= 5 && r[k] !in r[..k]
    decreases |draws|
  {
    if |opts| >= OptionCount || draws == [] then opts
    else
      var next := Step(opts, ans, draws[0]);
      AllRandomTail(draws);
      var r := Fill(next, ans, draws[1..]);
      PrefixOfPrefix(r, next, opts);
      assert |next| == |opts| + 1 ==> r[|opts|] == next[|opts|] && r[..|opts|] == opts;
      r
  }

  /** A prefix of a prefix is a prefix. */
  lemma PrefixOfPrefix(r: seq<int>, next: seq<int>, opts: seq<int>)
    requires |opts| <= |next| <= |r| && r[..|next|] == next && next[..|opts|] == opts
    ensures r[..|opts|] == opts
    ensures forall k :: 0 <= k < |next| ==> r[k] == next[k]
  {
    assert r[..|opts|] == r[..|next|][..|opts|];
    forall k | 0 <= k < |next| ensures r[k] == next[k] {
      assert r[..|next|][k] == r[k];
    }
  }

  /** The draws after the first are random draws too. */
  lemma AllRandomTail(draws: seq<real>)
    requires AllRandom(draws) && draws != []
    ensures AllRandom(draws[1..])
  {
    forall k | 0 <= k < |draws[1..]| ensures IsRandom(draws[1..][k]) {
      assert draws[1..][k] == draws[k + 1];
    }
  }

  /** The draws let the loop finish: four options are collected before they run out. */
  ghost predicate Completes(ans: int, draws: seq<real>)
  {
    AllRandom(draws) && |Fill([ans], ans, draws)| == OptionCount
  }

  /** Starting from a list without duplicates, the loop never adds a duplicate. */
  lemma FillDistinct(opts: seq<int>, ans: int, draws: seq<real>)
    requires AllRandom(draws) && NoDups(opts)
    ensures NoDups(Fill(opts, ans, draws))
  {
    var r := Fill(opts, ans, draws);
    forall i, j | 0 <= i < j < |r| ensures r[i] != r[j] {
      if j >= |opts| {
        assert r[i] in r[..j];
      } else {
        assert r[i] == opts[i] && r[j] == opts[j];
      }
    }
  }

  /**
   * Once the draw at position `i` offers a positive candidate, that
   * candidate ends up among the options, unless the list was already full.
   */
  lemma {:induction false} FillOffers(opts: seq<int>, ans: int, draws: seq<real>, i: nat)
    requires AllRandom(draws) && |opts| <= OptionCount && i < |draws|
    requires ans + Offset(draws[i]) > 0
    ensures ans + Offset(draws[i]) in Fill(opts, ans, draws) || |Fill(opts, ans, draws)| == OptionCount
    decreases |draws|
  {
    if |opts| < OptionCount {
      var fake := ans + Offset(draws[0]);
      var next := Step(opts, ans, draws[0]);
      var rest := draws[1..];
      FillStep(opts, ans, draws);
      if i == 0 {
        assert fake in next by {
          if fake !in opts { assert next == opts + [fake]; }
        }
        KeptPrefix(next, ans, rest, fake);
      } else {
        assert rest[i - 1] == draws[i];
        FillOffers(next, ans, rest, i - 1);
      }
    }
  }

  /** One round of the loop, when fewer than four options are held and a draw is left. */
  lemma FillStep(opts: seq<int>, ans: int, draws: seq<real>)
    requires AllRandom(draws) && |opts| < OptionCount && draws != []
    ensures AllRandom(draws[1..])
    ensures Fill(opts, ans, draws) == Fill(Step(opts, ans, draws[0]), ans, draws[1..])
  {
    AllRandomTail(draws);
  }

  /** An option already held is still held after the loop. */
  lemma KeptPrefix(opts: seq<int>, ans: int, draws: seq<real>, x: int)
    requires AllRandom(draws) && x in opts
    ensures x in Fill(opts, ans, draws)
  {
    var r := Fill(opts, ans, draws);
    var j :| 0 <= j < |opts| && opts[j] == x;
    assert r[..|opts|] == opts;
    assert r[j] == x;
  }

  /**
   * The loop finishes as soon as three different non-zero offsets with
   * positive candidates have been drawn, whatever else is drawn around them.
   */
  lemma ThreeOffsetsComplete(ans: int, draws: seq<real>, i: nat, j: nat, k: nat)
    requires AllRandom(draws) && i < |draws| && j < |draws| && k < |draws|
    requires Offset(draws[i]) != 0 && Offset(draws[j]) != 0 && Offset(draws[k]) != 0
    requires Offset(draws[i]) != Offset(draws[j]) && Offset(draws[j]) != Offset(draws[k]) && Offset(draws[i]) != Offset(draws[k])
    requires ans + Offset(draws[i]) > 0 && ans + Offset(draws[j]) > 0 && ans + Offset(draws[k]) > 0
    ensures Completes(ans, draws)
  {
    // Four distinct values (the answer and the three candidates) cannot all fit in fewer than four slots.
    FillDistinct([ans], ans, draws);
    FillOffers([ans], ans, draws, i);
    FillOffers([ans], ans, draws, j);
    FillOffers([ans], ans, draws, k);
  }

  /** For every positive answer there are draws that let the loop finish. */
  lemma SuitableDrawsExist(ans: int)
    requires ans >= 1
    ensures Completes(ans, [6.0 / 11.0, 7.0 / 11.0, 8.0 / 11.0])
  {
    var draws := [6.0 / 11.0, 7.0 / 11.0, 8.0 / 11.0];
    assert Offset(draws[0]) == 1 && Offset(draws[1]) == 2 && Offset(draws[2]) == 3;
    ThreeOffsetsComplete(ans, draws, 0, 1, 2);
  }

  /** What a finished loop leaves: the answer first, then three distinct wrong answers, positive and within 5 of it. */
  lemma CompletedOptions(ans: int, draws: seq<real>)
    requires Completes(ans, draws)
    ensures var r := Fill([ans], ans, draws);
      |r| == OptionCount && r[0] == ans && NoDups(r) &&
      forall k :: 1 <= k < |r| ==> r[k] != ans && 0 < r[k] && -5 <= r[k] - ans <= 5
  {
    var r := Fill([ans], ans, draws);
    FillDistinct([ans], ans, draws);
    assert r[0] == r[..1][0] == ans;
    forall k | 1 <= k < |r| ensures r[k] != ans {
      assert r[0] == ans;
    }
  }

  /**
   * The rejection loop of the option lists. Given draws that let it finish,
   * it returns four distinct options: the answer first, then three wrong
   * answers that are positive and within 5 of it.
   */
  method BuildOptions(ans: int, draws: seq<real>) returns (opts: seq<int>)
    requires Completes(ans, draws)
    ensures opts == Fill([ans], ans, draws)
    ensures |opts| == OptionCount && opts[0] == ans && NoDups(opts)
    ensures forall k :: 1 <= k < |opts| ==> opts[k] != ans && 0 < opts[k] && -5 <= opts[k] - ans <= 5
  {
    opts := [ans];
    var i := 0;
    while |opts| < OptionCount
      invariant 0 <= i <= |draws|
      invariant Fill(opts, ans, draws[i..]) == Fill([ans], ans, draws)
      invariant 1 <= |opts| <= OptionCount
      decreases |draws| - i
    {
      var rest := draws[i..];
      assert rest != [] && rest[0] == draws[i] && rest[1..] == draws[i + 1..];
      var fake := ans + Offset(draws[i]);
      if fake > 0 && fake !in opts {
        opts := opts + [fake];
      }
      i := i + 1;
    }
    CompletedOptions(ans, draws);
  }
}
