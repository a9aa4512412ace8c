/** When the bounded queue of src/analysis/opportunity.rs keeps the best entries: it compares with its highest entry, not
    with its lowest. */
module BestQueue {
  import opened Units
  import opened Opportunities

  /** Nothing in `all` that was left out beats anything that was kept. */
  ghost predicate BestPart(all: multiset<Score>, q: multiset<Score>) {
    q <= all && forall x <- q, y <- all - q :: y.AtMost(x)
  }

  /** No later offer beats any of the first ones. */
  predicate NoneBeats(kept: seq<Score>, later: seq<Score>) {
    forall i, j :: 0 <= i < |kept| && 0 <= j < |later| ==> later[j].AtMost(kept[i])
  }

  predicate AllEqual(kept: seq<Score>) {
    forall i, j :: 0 <= i < j < |kept| ==> kept[i] == kept[j]
  }

  predicate AtMostOneBeats(score: Score, later: seq<Score>) {
    forall i, j :: 0 <= i < j < |later| ==> later[i].AtMost(score) || later[j].AtMost(score)
  }

  // The same conditions on multisets

  ghost predicate Below(q: multiset<Score>, score: Score) {
    forall x <- q :: x.AtMost(score)
  }

  lemma NoneBeatsAsMultisets(kept: seq<Score>, later: seq<Score>)
    ensures NoneBeats(kept, later) <==> forall x <- multiset(kept) :: Below(multiset(later), x)
  {
    if forall x <- multiset(kept) :: Below(multiset(later), x) {
      forall i, j | 0 <= i < |kept| && 0 <= j < |later| ensures later[j].AtMost(kept[i]) {
        assert kept[i] in multiset(kept) && later[j] in multiset(later);
      }
    }
    if NoneBeats(kept, later) {
      forall x <- multiset(kept), y <- multiset(later) ensures y.AtMost(x) {
        var i :| 0 <= i < |kept| && kept[i] == x;
        var j :| 0 <= j < |later| && later[j] == y;
      }
    }
  }

  lemma AllEqualAsMultiset(kept: seq<Score>)
    requires kept != []
    ensures AllEqual(kept) <==> forall x <- multiset(kept) :: x == kept[0]
  {
    if forall x <- multiset(kept) :: x == kept[0] {
      forall i, j | 0 <= i < j < |kept| ensures kept[i] == kept[j] {
        assert kept[i] in multiset(kept) && kept[j] in multiset(kept);
      }
    }
    if AllEqual(kept) {
      forall x <- multiset(kept) ensures x == kept[0] {
        var i :| 0 <= i < |kept| && kept[i] == x;
      }
    }
  }

  function Without(s: seq<Score>, at: nat): seq<Score>
    requires at < |s|
  {
    s[..at] + s[at + 1..]
  }

  lemma RemovedOne(s: seq<Score>, at: nat)
    requires at < |s|
    ensures multiset(Without(s, at)) == multiset(s) - multiset{s[at]}
  {
    assert s == s[..at] + [s[at]] + s[at + 1..];
  }

  lemma OthersBelow(score: Score, later: seq<Score>, at: nat)
    requires at < |later| && Below(multiset(Without(later, at)), score)
    ensures AtMostOneBeats(score, later)
  {
    var rest := Without(later, at);
    forall k | 0 <= k < |later| && k != at ensures later[k].AtMost(score) {
      assert later[k] == rest[if k < at then k else k - 1];
      assert later[k] in multiset(rest);
    }
  }

  lemma BelowOthers(score: Score, later: seq<Score>, at: nat)
    requires at < |later| && AtMostOneBeats(score, later)
    requires forall k :: 0 <= k < |later| ==> later[k].AtMost(later[at])
    ensures Below(multiset(Without(later, at)), score)
  {
    var rest := Without(later, at);
    forall y: Score | y in multiset(rest) ensures y.AtMost(score) {
      var k :| 0 <= k < |rest| && rest[k] == y;
      var i := if k < at then k else k + 1;
      assert later[i] == y;
    }
  }

  lemma AtMostOneAsMultiset(score: Score, later: seq<Score>)
    requires later != []
    ensures |multiset(later)| > 0
    ensures AtMostOneBeats(score, later) <==> Below(multiset(later) - multiset{Top(multiset(later))}, score)
  {
    hide AtMostOneBeats, Below, Without;
    assert later[0] in multiset(later);
    var top := Top(multiset(later));
    var at :| 0 <= at < |later| && later[at] == top;
    RemovedOne(later, at);
    if Below(multiset(Without(later, at)), score) {
      OthersBelow(score, later, at);
    }
    if AtMostOneBeats(score, later) {
      forall k | 0 <= k < |later| ensures later[k].AtMost(later[at]) {
        assert later[k] in multiset(later);
      }
      BelowOthers(score, later, at);
    }
  }

  // The exact condition

  /** The first offers outrank the later ones: the queue keeps them as they are. */
  lemma KeptAsTheyAre(k: multiset<Score>, l: multiset<Score>)
    requires |k| > 0 && |l| > 0 && Top(l).AtMost(Top(k))
    ensures Top(k + l) == Top(k) && k - multiset{Top(k)} + multiset{Top(k + l)} == k
    ensures BestPart(k + l, k) <==> forall x <- k :: Below(l, x)
  {
    TopUnique(k + l, Top(k));
    assert Top(k) in k && k + l - k == l;
  }

  lemma OnlyOne(k: multiset<Score>, t: Score)
    requires t in k && |k| == 1
    ensures k == multiset{t}
  {
    var rest := k - multiset{t};
    assert |rest| == 0;
    assert k == rest + multiset{t};
  }

  lemma SomeOther(k: multiset<Score>, t: Score) returns (other: Score)
    requires t in k && |k| > 1
    ensures other in k - multiset{t}
  {
    assert |k - multiset{t}| > 0;
    other :| other in k - multiset{t};
  }

  /** Some later offer outranks them all: it replaces their highest. */
  lemma HighestReplaced(k: multiset<Score>, l: multiset<Score>)
    requires |k| > 0 && |l| > 0 && !Top(l).AtMost(Top(k))
    ensures Top(k + l) == Top(l)
    ensures BestPart(k + l, k - multiset{Top(k)} + multiset{Top(l)})
            <==> |k| == 1 || ((forall x <- k :: x == Top(k)) && Below(l - multiset{Top(l)}, Top(k)))
  {
    TopUnique(k + l, Top(l));
    ReplacedIsBest(k, l, Top(k), Top(l));
  }

  lemma ReplacedIsBest(k: multiset<Score>, l: multiset<Score>, t: Score, m: Score)
    requires IsTop(k, t) && IsTop(l, m) && !m.AtMost(t)
    ensures BestPart(k + l, k - multiset{t} + multiset{m})
            <==> |k| == 1 || ((forall x <- k :: x == t) && Below(l - multiset{m}, t))
  {
    var rest, others := k - multiset{t}, l - multiset{m};
    assert k + l - (rest + multiset{m}) == others + multiset{t} && rest + multiset{m} <= k + l;
    assert |k| > 0;
    if |k| == 1 {
      OnlyOne(k, t);
      assert rest == multiset{};
    } else {
      var other := SomeOther(k, t);
      assert forall x <- k :: x in rest || x == t;
      RestIsBest(rest, others, t, m, other);
    }
  }

  lemma RestIsBest(rest: multiset<Score>, others: multiset<Score>, t: Score, m: Score, other: Score)
    requires other in rest && Below(rest, t) && Below(others, m) && !m.AtMost(t)
    ensures (forall x <- rest + multiset{m}, y <- others + multiset{t} :: y.AtMost(x))
            <==> (forall x <- rest :: x == t) && Below(others, t)
  {
    if forall x <- rest + multiset{m}, y <- others + multiset{t} :: y.AtMost(x) {
      forall x <- rest ensures x == t {
        assert x in rest + multiset{m} && t in others + multiset{t};
      }
      forall y <- others ensures y.AtMost(t) {
        assert y in others + multiset{t} && other in rest + multiset{m};
      }
    }
  }

  /** What a queue of this capacity has room for; at capacity 0 it still takes one. */
  function Room(capacity: nat, offers: seq<Score>): (room: nat)
    ensures room <= |offers|
  {
    Min(Max(1, capacity), |offers|)
  }

  /** The conditions under which comparing with the highest entry does no harm: there is room for one only; or no later
      offer beats any of the first ones; or the first ones are all equal and at most one later offer beats them. */
  predicate Harmless(capacity: nat, kept: seq<Score>, later: seq<Score>) {
    capacity <= 1 || NoneBeats(kept, later) || (kept != [] && AllEqual(kept) && AtMostOneBeats(kept[0], later))
  }

  lemma FirstOffers(capacity: nat, offers: seq<Score>)
    ensures FirstKept(multiset{}, capacity, offers) == multiset(offers[..Room(capacity, offers)])
  {
  }

  lemma SplitOffers(offers: seq<Score>, n: nat)
    requires n < |offers|
    ensures multiset(offers) == multiset(offers[..n]) + multiset(offers[n..])
    ensures |multiset(offers[..n])| == n && |multiset(offers[n..])| > 0
  {
    assert offers == offers[..n] + offers[n..];
  }

  lemma NothingAdded(q: multiset<Score>)
    ensures multiset{} + q == q
  {
  }

  lemma OverflowClosedForm(capacity: nat, offers: seq<Score>)
    requires Room(capacity, offers) < |offers|
    ensures var room := Room(capacity, offers);
            var k, l := multiset(offers[..room]), multiset(offers[room..]);
            && |k| == room == Max(1, capacity) && |l| > 0 && multiset(offers) == k + l
            && OfferAll(multiset{}, capacity, offers) == k - multiset{Top(k)} + multiset{Top(k + l)}
  {
    var room := Room(capacity, offers);
    QueueClosedForm(multiset{}, capacity, offers);
    FirstOffers(capacity, offers);
    SplitOffers(offers, room);
    NothingAdded(multiset(offers));
    hide OfferAll, FirstKept, Top;
  }

  lemma KeepsBestWhenOutranked(capacity: nat, kept: seq<Score>, later: seq<Score>)
    requires |kept| == Max(1, capacity) && later != []
    ensures |multiset(kept)| > 0 && |multiset(later)| > 0
    ensures var k, l := multiset(kept), multiset(later);
            Top(l).AtMost(Top(k)) ==> ((forall x <- k :: Below(l, x)) <==> Harmless(capacity, kept, later))
  {
    var k, l := multiset(kept), multiset(later);
    assert kept[0] in k && later[0] in l;
    if Top(l).AtMost(Top(k)) {
      NoneBeatsAsMultisets(kept, later);
      AllEqualAsMultiset(kept);
      assert Top(k) in k;
      if |kept| == 1 {
        OnlyOne(k, Top(k));
      }
      assert Below(l, Top(k));
      hide NoneBeats, AllEqual, AtMostOneBeats;
    }
  }

  lemma KeepsBestWhenBeaten(capacity: nat, kept: seq<Score>, later: seq<Score>)
    requires |kept| == Max(1, capacity) && later != []
    ensures |multiset(kept)| > 0 && |multiset(later)| > 0
    ensures var k, l := multiset(kept), multiset(later);
            !Top(l).AtMost(Top(k)) ==>
              (|k| == 1 || ((forall x <- k :: x == Top(k)) && Below(l - multiset{Top(l)}, Top(k)))
               <==> Harmless(capacity, kept, later))
  {
    var k, l := multiset(kept), multiset(later);
    assert kept[0] in k && later[0] in l;
    if !Top(l).AtMost(Top(k)) {
      NoneBeatsAsMultisets(kept, later);
      AllEqualAsMultiset(kept);
      AtMostOneAsMultiset(kept[0], later);
      assert Top(k) in k && Top(l) in l;
      assert !Below(l, Top(k));
      hide NoneBeats, AllEqual, AtMostOneBeats, Below;
    }
  }

  lemma RoomForAll(capacity: nat, offers: seq<Score>)
    requires Room(capacity, offers) == |offers|
    ensures BestPart(multiset(offers), OfferAll(multiset{}, capacity, offers)) && Harmless(capacity, offers, [])
  {
    QueueClosedForm(multiset{}, capacity, offers);
    assert offers[..|offers|] == offers;
    assert multiset{} + multiset(offers) == multiset(offers);
  }

  lemma OverflowKeepsBest(capacity: nat, kept: seq<Score>, later: seq<Score>, q: multiset<Score>)
    requires |kept| == Max(1, capacity) && later != []
    requires |multiset(kept)| > 0 && |multiset(kept) + multiset(later)| > 0
    requires var k, l := multiset(kept), multiset(later); q == k - multiset{Top(k)} + multiset{Top(k + l)}
    ensures BestPart(multiset(kept) + multiset(later), q) <==> Harmless(capacity, kept, later)
  {
    hide BestPart, Harmless, Below, Score.AtMost;
    var k, l := multiset(kept), multiset(later);
    KeepsBestWhenOutranked(capacity, kept, later);
    KeepsBestWhenBeaten(capacity, kept, later);
    if Top(l).AtMost(Top(k)) {
      KeptAsTheyAre(k, l);
    } else {
      HighestReplaced(k, l);
    }
  }

  /** Whatever is offered to an empty queue of any capacity, it ends up with the best of the offers exactly when comparing
      with the highest entry was harmless. */
  lemma KeepsBestExactly(capacity: nat, offers: seq<Score>)
    ensures var room := Room(capacity, offers);
            BestPart(multiset(offers), OfferAll(multiset{}, capacity, offers))
            <==> Harmless(capacity, offers[..room], offers[room..])
  {
    hide OfferAll, BestPart, Harmless;
    var room := Room(capacity, offers);
    var kept, later := offers[..room], offers[room..];
    if room == |offers| {
      RoomForAll(capacity, offers);
      assert kept == offers && later == [];
    } else {
      OverflowClosedForm(capacity, offers);
      OverflowKeepsBest(capacity, kept, later, OfferAll(multiset{}, capacity, offers));
    }
  }

  lemma TopOfTwo(low: Score, high: Score)
    requires low.AtMost(high)
    ensures |multiset{low, high}| > 0 && Top(multiset{low, high}) == high
  {
    TopUnique(multiset{low, high}, high);
  }

  /** A full queue of two that is offered something higher. */
  lemma OfferedHigher(low: Score, middle: Score, high: Score)
    requires low.AtMost(middle) && !high.AtMost(middle)
    ensures Offer(multiset{low, middle}, 2, high) == multiset{low, high}
  {
    TopOfTwo(low, middle);
    hide Score.AtMost;
  }

  lemma {:induction false} OfferedThree(a: Score, b: Score, c: Score)
    ensures OfferAll(multiset{}, 2, [a, b, c]) == Offer(multiset{a, b}, 2, c)
  {
    assert [a, b, c][..2] == [a, b] && [a, b][..1] == [a] && [a][..0] == [];
    assert OfferAll(multiset{}, 2, [a]) == multiset{a};
    assert OfferAll(multiset{}, 2, [a, b]) == multiset{a, b};
    hide Top;
  }

  lemma MiddleBeatsLow(low: Score, middle: Score, high: Score)
    requires !middle.AtMost(low)
    ensures !BestPart(multiset{low, middle, high}, multiset{low, high})
  {
    assert multiset{low, middle, high} - multiset{low, high} == multiset{middle};
    assert low in multiset{low, high} && middle in multiset{middle};
  }

  /** Offered 1, 2 and 3, a queue of two throws out 2. */
  lemma MiddleIsLost()
    ensures var offers := [Points(1.0), Points(2.0), Points(3.0)];
            && OfferAll(multiset{}, 2, offers) == multiset{Points(1.0), Points(3.0)}
            && !BestPart(multiset(offers), OfferAll(multiset{}, 2, offers))
  {
    var low, middle, high := Points(1.0), Points(2.0), Points(3.0);
    OfferedThree(low, middle, high);
    OfferedHigher(low, middle, high);
    MiddleBeatsLow(low, middle, high);
    hide Offer, OfferAll, BestPart;
    assert multiset([low, middle, high]) == multiset{low, middle, high};
  }
}
