/**
 * What a sequence of partial fills does to one order. Each fill replaces the
 * order's amounts (offer, ask) by (offer - take, ask - Owed(take, ask, offer)).
 */
module FillRuns {
  import opened Sequences
  import opened Pricing

  datatype Amounts = Amounts(offer: int, ask: int) {
    predicate Positive() {
      offer > 0 && ask > 0
    }

    /** Unit price ask/offer, compared by cross-multiplication. */
    predicate NoDearerThan(other: Amounts) {
      ask * other.offer <= other.ask * offer
    }
  }

  predicate ValidRun(a: Amounts, takes: seq<int>)
    requires a.Positive()
    decreases |takes|
  {
    takes == [] ||
    (AcceptedTake(takes[0], a.ask, a.offer) && ValidRun(Fill(a, takes[0]), takes[1..]))
  }

  function Fill(a: Amounts, take: int): (r: Amounts)
    requires a.Positive() && AcceptedTake(take, a.ask, a.offer)
    ensures r.Positive()
  {
    Amounts(a.offer - take, a.ask - Owed(take, a.ask, a.offer))
  }

  function After(a: Amounts, takes: seq<int>): (r: Amounts)
    requires a.Positive() && ValidRun(a, takes)
    ensures r.Positive()
    decreases |takes|
  {
    if takes == [] then a else After(Fill(a, takes[0]), takes[1..])
  }

  /** The payments of a run, fill by fill. */
  function Payments(a: Amounts, takes: seq<int>): (r: seq<int>)
    requires a.Positive() && ValidRun(a, takes)
    decreases |takes|
  {
    if takes == [] then []
    else [Owed(takes[0], a.ask, a.offer)] + Payments(Fill(a, takes[0]), takes[1..])
  }

  /** What was taken and what was paid account exactly for what is gone. */
  lemma {:induction false} RunConserves(a: Amounts, takes: seq<int>)
    requires a.Positive() && ValidRun(a, takes)
    ensures After(a, takes) == Amounts(a.offer - Sum(takes), a.ask - Sum(Payments(a, takes)))
    decreases |takes|
  {
    if takes != [] {
      RunConserves(Fill(a, takes[0]), takes[1..]);
    }
  }

  /** A run followed by one more acceptable fill of what it left. */
  lemma {:induction false} RunSnoc(a: Amounts, takes: seq<int>, take: int)
    requires a.Positive() && ValidRun(a, takes)
    requires AcceptedTake(take, After(a, takes).ask, After(a, takes).offer)
    ensures ValidRun(a, takes + [take]) && After(a, takes + [take]) == Fill(After(a, takes), take)
    ensures Payments(a, takes + [take])
         == Payments(a, takes) + [Owed(take, After(a, takes).ask, After(a, takes).offer)]
    decreases |takes|
  {
    if takes == [] {
      assert [take][1..] == [];
    } else {
      assert (takes + [take])[1..] == takes[1..] + [take];
      RunSnoc(Fill(a, takes[0]), takes[1..], take);
    }
  }

  lemma {:induction false} NoDearerTransitive(a: Amounts, b: Amounts, c: Amounts)
    requires a.Positive() && b.Positive() && c.Positive()
    requires a.NoDearerThan(b) && b.NoDearerThan(c)
    ensures a.NoDearerThan(c)
  {
    assert a.ask * b.offer * c.offer <= b.ask * a.offer * c.offer;
    assert b.ask * c.offer * a.offer <= c.ask * b.offer * a.offer;
    assert a.ask * c.offer * b.offer <= c.ask * a.offer * b.offer;
  }

  /** The unit price of the remainder never rises, over one fill or many. */
  lemma {:induction false} RunNeverDearer(a: Amounts, takes: seq<int>)
    requires a.Positive() && ValidRun(a, takes)
    ensures After(a, takes).NoDearerThan(a)
    decreases |takes|
  {
    if takes != [] {
      var b := Fill(a, takes[0]);
      OwedBounds(takes[0], a.ask, a.offer);
      RunNeverDearer(b, takes[1..]);
      NoDearerTransitive(After(b, takes[1..]), b, a);
    }
  }

  lemma {:induction false} ScaleBound(paid: int, taken: int, k: int, b: Amounts, a: Amounts)
    requires a.Positive() && b.Positive() && b.NoDearerThan(a) && taken >= 0
    requires paid * b.offer <= taken * b.ask + k * b.offer
    ensures paid * a.offer <= taken * a.ask + k * a.offer
    ensures paid * b.offer < taken * b.ask + k * b.offer ==> paid * a.offer < taken * a.ask + k * a.offer
  {
    var x := paid - k;
    assert x * b.offer <= taken * b.ask;
    assert x * b.offer * a.offer <= taken * b.ask * a.offer;
    assert taken * (b.ask * a.offer) <= taken * (a.ask * b.offer);
    assert x * a.offer * b.offer <= taken * a.ask * b.offer;
    if paid * b.offer < taken * b.ask + k * b.offer {
      assert x * b.offer * a.offer < taken * b.ask * a.offer;
      assert x * a.offer * b.offer < taken * a.ask * b.offer;
    }
  }

  lemma {:induction false} AddBounds(p: int, t: int, ps: int, ts: int, k: int, offer: int, ask: int)
    requires p * offer < t * ask + offer
    requires ps * offer <= ts * ask + k * offer
    ensures (p + ps) * offer < (t + ts) * ask + (k + 1) * offer
  {
  }

  lemma {:induction false} RunUpperBound(a: Amounts, takes: seq<int>)
    requires a.Positive() && ValidRun(a, takes)
    ensures Sum(takes) >= |takes|
    ensures Sum(Payments(a, takes)) * a.offer <= Sum(takes) * a.ask + |takes| * a.offer
    ensures takes != [] ==>
      Sum(Payments(a, takes)) * a.offer < Sum(takes) * a.ask + |takes| * a.offer
    decreases |takes|
  {
    if takes == [] {
    } else {
      var t, rest := takes[0], takes[1..];
      var b := Fill(a, t);
      OwedBounds(t, a.ask, a.offer);
      RunUpperBound(b, rest);
      assert b.NoDearerThan(a) by {
        RunNeverDearer(a, [t]);
        assert After(a, [t]) == b;
      }
      var ps, ts, p := Sum(Payments(b, rest)), Sum(rest), Owed(t, a.ask, a.offer);
      ScaleBound(ps, ts, |rest|, b, a);
      AddBounds(p, t, ps, ts, |rest|, a.offer, a.ask);
      assert Payments(a, takes) == [p] + Payments(b, rest);
      assert Sum(Payments(a, takes)) == p + ps && Sum(takes) == t + ts && |takes| == |rest| + 1;
    }
  }

  lemma {:induction false} CheaperRemainderMeansFairPrice(a: Amounts, r: Amounts)
    requires r.NoDearerThan(a)
    ensures (a.offer - r.offer) * a.ask <= (a.ask - r.ask) * a.offer
  {
    assert (a.offer - r.offer) * a.ask == a.offer * a.ask - r.offer * a.ask;
    assert (a.ask - r.ask) * a.offer == a.ask * a.offer - r.ask * a.offer;
  }

  lemma {:induction false} RunLowerBound(a: Amounts, takes: seq<int>)
    requires a.Positive() && ValidRun(a, takes)
    ensures Sum(takes) * a.ask <= Sum(Payments(a, takes)) * a.offer
  {
    var r := After(a, takes);
    RunNeverDearer(a, takes);
    CheaperRemainderMeansFairPrice(a, r);
    RunConserves(a, takes);
    assert a.offer - r.offer == Sum(takes) && a.ask - r.ask == Sum(Payments(a, takes));
  }

  /**
   * k fills taking T in all pay at least T*ask/offer and less than k units more,
   * whatever the split.
   */
  lemma {:induction false} RunPaysFairPrice(a: Amounts, takes: seq<int>)
    requires a.Positive() && ValidRun(a, takes) && takes != []
    ensures Sum(takes) * a.ask <= Sum(Payments(a, takes)) * a.offer
    ensures Sum(Payments(a, takes)) * a.offer < Sum(takes) * a.ask + |takes| * a.offer
  {
    RunLowerBound(a, takes);
    RunUpperBound(a, takes);
  }

  lemma {:induction false} CeilingGap(paid: int, single: int, k: int, exact: int, offer: int)
    requires offer > 0
    requires exact <= single * offer && paid * offer < exact + k * offer
    ensures paid < single + k
  {
    assert paid * offer < (single + k) * offer;
  }

  /**
   * Splitting never costs less: the run's total is itself an acceptable single
   * take, one that costs no more than the run and less than k units below it.
   */
  lemma {:induction false} SplittingNeverCheaper(a: Amounts, takes: seq<int>)
    requires a.Positive() && ValidRun(a, takes) && takes != []
    ensures var t, paid := Sum(takes), Sum(Payments(a, takes));
      && AcceptedTake(t, a.ask, a.offer)
      && Owed(t, a.ask, a.offer) <= paid < Owed(t, a.ask, a.offer) + |takes|
  {
    var t, paid, k := Sum(takes), Sum(Payments(a, takes)), |takes|;
    assert t >= k by { RunUpperBound(a, takes); }
    assert t < a.offer && paid < a.ask by { RunConserves(a, takes); }
    assert t * a.ask <= paid * a.offer < t * a.ask + k * a.offer by { RunPaysFairPrice(a, takes); }
    OwedIsCeiling(t, a.ask, a.offer, paid);
    OwedBounds(t, a.ask, a.offer);
    CeilingGap(paid, Owed(t, a.ask, a.offer), k, t * a.ask, a.offer);
  }

  /**
   * Whatever fills came before, closing the remainder with a full take makes the
   * seller's receipts sum to exactly the original ask, for exactly the original
   * offer.
   */
  lemma {:induction false} ClosingTakeSettles(a: Amounts, takes: seq<int>)
    requires a.Positive() && ValidRun(a, takes)
    ensures Sum(Payments(a, takes)) + After(a, takes).ask == a.ask
    ensures Sum(takes) + After(a, takes).offer == a.offer
  {
    RunConserves(a, takes);
  }
}
