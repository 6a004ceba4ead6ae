// Operations on piles of cards and stacks of tokens, as the engine performs
// them on its Python lists: removing the first occurrence of a card, keeping
// or dropping camels, popping from the end of the deck, summing tokens, and
// the combinations of a pile in the order the standard library yields them.

module Piles {
  import opened Cards

  /** Position of the first occurrence of `c` in `s`. */
  function FirstIndex<T(==)>(s: seq<T>, c: T): (i: nat)
    requires c in s
    ensures i < |s| && s[i] == c && c !in s[..i]
  {
    if s[0] == c then 0
    else
      assert s == [s[0]] + s[1..];
      var j := FirstIndex(s[1..], c);
      assert s[..j + 1] == [s[0]] + s[1..][..j];
      j + 1
  }

  /** Removes the first occurrence of `c` (list.remove); the engine only calls it on present cards. */
  function RemoveFirst<T(==)>(s: seq<T>, c: T): (r: seq<T>)
    requires c in s
    ensures |r| == |s| - 1
    ensures multiset(r) == multiset(s) - multiset{c}
    ensures exists i :: 0 <= i < |s| && s[i] == c && c !in s[..i] && r == s[..i] + s[i + 1..]
  {
    var i := FirstIndex(s, c);
    assert s == s[..i] + [c] + s[i + 1..];
    s[..i] + s[i + 1..]
  }

  /** The cards `list.remove` leaves keep their order. */
  lemma RemoveFirstKeepsOrder<T>(s: seq<T>, c: T)
    requires c in s
    ensures Subsequence(RemoveFirst(s, c), s)
  {
    DropOne(s, FirstIndex(s, c));
  }

  /** Removes every card of `cs`, one `list.remove` per card, in the order of `cs`. */
  function RemoveEach<T(==)>(s: seq<T>, cs: seq<T>): (r: seq<T>)
    requires multiset(cs) <= multiset(s)
    ensures |r| == |s| - |cs|
    ensures multiset(r) == multiset(s) - multiset(cs)
    decreases |cs|
  {
    if cs == [] then s
    else
      var init, last := cs[..|cs| - 1], cs[|cs| - 1];
      assert cs == init + [last];
      var before := RemoveEach(s, init);
      assert last in multiset(before);
      RemoveFirst(before, last)
  }

  /** The cards left after removing each card of `cs` in turn keep their order. */
  lemma {:induction false} RemoveEachKeepsOrder<T>(s: seq<T>, cs: seq<T>)
    requires multiset(cs) <= multiset(s)
    ensures Subsequence(RemoveEach(s, cs), s)
    decreases |cs|
  {
    if cs == [] {
      SubsequenceOfItself(s);
    } else {
      var init, last := cs[..|cs| - 1], cs[|cs| - 1];
      assert cs == init + [last];
      var before := RemoveEach(s, init);
      assert last in multiset(before);
      RemoveEachKeepsOrder(s, init);
      RemoveFirstKeepsOrder(before, last);
      SubsequenceTransitive(RemoveFirst(before, last), before, s);
    }
  }

  /** Removes `n` copies of `c`, one `list.remove` at a time. */
  function RemoveCopies(s: seq<Good>, c: Good, n: nat): (r: seq<Good>)
    requires n <= multiset(s)[c]
    ensures |r| == |s| - n
    ensures multiset(r)[c] == multiset(s)[c] - n
    ensures forall g :: g != c ==> multiset(r)[g] == multiset(s)[g]
    ensures multiset(r) + multiset(Repeat(c, n)) == multiset(s)
  {
    var copies := Repeat(c, n);
    RepeatMultiset(c, n);
    var r := RemoveEach(s, copies);
    CopiesRemoved(multiset(s), multiset(r), multiset(copies), c, n);
    r
  }

  /** The cards of the hand left after a sale keep their order. */
  lemma RemoveCopiesKeepsOrder(s: seq<Good>, c: Good, n: nat)
    requires n <= multiset(s)[c]
    ensures Subsequence(RemoveCopies(s, c, n), s)
  {
    RepeatMultiset(c, n);
    RemoveEachKeepsOrder(s, Repeat(c, n));
  }

  lemma CopiesRemoved(ms: multiset<Good>, mr: multiset<Good>, copies: multiset<Good>, c: Good, n: nat)
    requires copies == multiset{}[c := n] && n <= ms[c] && mr == ms - copies
    ensures mr[c] == ms[c] - n
    ensures forall g :: g != c ==> mr[g] == ms[g]
    ensures mr + copies == ms
  {
    forall g ensures (mr + copies)[g] == ms[g] {
    }
  }

  /** The camels of a pile, in order (`[card for card in s if card == 'Camel']`). */
  function OnlyCamels(s: seq<Good>): (r: seq<Good>)
    ensures r == Repeat(Camel, multiset(s)[Camel])
  {
    if s == [] then []
    else
      assert s == [s[0]] + s[1..];
      var rest := OnlyCamels(s[1..]);
      if s[0] == Camel then
        assert [Camel] + rest == Repeat(Camel, |rest| + 1);
        [Camel] + rest
      else
        rest
  }

  /** The non-camel cards of a pile, in order (`[card for card in s if card != 'Camel']`). */
  function WithoutCamels(s: seq<Good>): (r: seq<Good>)
    ensures Camel !in r
    ensures multiset(r) == multiset(s)[Camel := 0]
  {
    if s == [] then []
    else
      assert s == [s[0]] + s[1..];
      (if s[0] == Camel then [] else [s[0]]) + WithoutCamels(s[1..])
  }

  /** The non-camel cards keep the order they had in the pile. */
  lemma {:induction false} WithoutCamelsKeepsOrder(s: seq<Good>)
    ensures Subsequence(WithoutCamels(s), s)
    decreases |s|
  {
    if s == [] {
      SubsequenceOfItself(s);
    } else {
      WithoutCamelsKeepsOrder(s[1..]);
      SubsequenceExtended(s, WithoutCamels(s[1..]), s[0] != Camel);
    }
  }

  /** Filtering out the camels of two piles joined is filtering each pile and joining them. */
  lemma {:induction false} WithoutCamelsConcat(a: seq<Good>, b: seq<Good>)
    ensures WithoutCamels(a + b) == WithoutCamels(a) + WithoutCamels(b)
    decreases |a|
  {
    if a == [] {
      assert a + b == b;
    } else {
      var ab, kept := a + b, if a[0] == Camel then [] else [a[0]];
      assert ab[0] == a[0] && ab[1..] == a[1..] + b;
      assert WithoutCamels(ab) == kept + WithoutCamels(a[1..] + b);
      assert WithoutCamels(a) == kept + WithoutCamels(a[1..]);
      WithoutCamelsConcat(a[1..], b);
      JoinRegroups(kept, WithoutCamels(a[1..]), WithoutCamels(b));
    }
  }

  lemma JoinRegroups<T>(x: seq<T>, y: seq<T>, z: seq<T>)
    ensures x + (y + z) == (x + y) + z
  {
  }

  /** Filtering the camels out of a pile that holds none leaves it as it is. */
  lemma {:induction false} WithoutCamelsOfGoods(s: seq<Good>)
    requires multiset(s)[Camel] == 0
    ensures WithoutCamels(s) == s
    decreases |s|
  {
    if s != [] {
      assert s == [s[0]] + s[1..];
      assert s[0] in multiset(s);
      WithoutCamelsOfGoods(s[1..]);
    }
  }

  /** Filtering the camels out of a pile of camels leaves nothing. */
  lemma {:induction false} WithoutCamelsOfCamels(s: seq<Good>)
    requires multiset(s)[Camel] == |s|
    ensures WithoutCamels(s) == []
    decreases |s|
  {
    if s != [] {
      assert s == [s[0]] + s[1..];
      assert multiset(s)[Camel] == multiset(s[1..])[Camel] + (if s[0] == Camel then 1 else 0);
      assert multiset(s[1..])[Camel] <= |multiset(s[1..])| == |s[1..]|;
      WithoutCamelsOfCamels(s[1..]);
    }
  }

  /** `n` copies of `c` (`[c] * n`). */
  function Repeat<T>(c: T, n: nat): (r: seq<T>)
  {
    seq(n, _ => c)
  }

  /** The cards `k` successive `deck.pop()` calls return: the last card first. */
  function Drawn<T>(deck: seq<T>, k: nat): (r: seq<T>)
    requires k <= |deck|
  {
    seq(k, j requires 0 <= j < k => deck[|deck| - 1 - j])
  }

  /** Sum of a token list. */
  function Sum(s: seq<int>): int
  {
    if s == [] then 0 else Sum(s[..|s| - 1]) + s[|s| - 1]
  }

  /** The `k`-element combinations of `s`, in the order `itertools.combinations` yields them:
      those with the first card (in front of the `k - 1`-element combinations of the rest),
      then those without it. */
  function Combinations(s: seq<Good>, k: nat): (r: seq<seq<Good>>)
    ensures (|r| > 0) == (k <= |s|)
    ensures k <= |s| ==> r[0] == s[..k]
    ensures forall c :: c in r ==> |c| == k
    decreases |s|
  {
    if k == 0 then [[]]
    else if |s| < k then []
    else
      var tail := s[1..];
      var led := Led(s[0], Combinations(tail, k - 1));
      assert s[..k] == [s[0]] + tail[..k - 1];
      led + Combinations(tail, k)
  }

  /** Each combination of `cs` with `h` put in front. */
  function Led(h: Good, cs: seq<seq<Good>>): (r: seq<seq<Good>>)
    ensures |r| == |cs|
    ensures forall i :: 0 <= i < |cs| ==> r[i] == [h] + cs[i]
  {
    seq(|cs|, i requires 0 <= i < |cs| => [h] + cs[i])
  }

  /** Every combination takes its cards from `s`: it is a sub-multiset of `s`. */
  lemma {:induction false} CombinationWithin(s: seq<Good>, k: nat, c: seq<Good>)
    requires c in Combinations(s, k)
    ensures multiset(c) <= multiset(s)
    decreases |s|, 1
  {
    if k > 0 {
      assert 0 < k <= |s|;
      var tail := s[1..];
      var led := Led(s[0], Combinations(tail, k - 1));
      assert Combinations(s, k) == led + Combinations(tail, k);
      if c in led {
        LedWithin(s, k, c);
      } else {
        CombinationWithin(tail, k, c);
        TailWithin(s);
      }
    }
  }

  /** The combinations that keep the first card of `s` also lie within `s`. */
  lemma {:induction false} LedWithin(s: seq<Good>, k: nat, c: seq<Good>)
    requires 0 < k <= |s| && c in Led(s[0], Combinations(s[1..], k - 1))
    ensures multiset(c) <= multiset(s)
    decreases |s|, 0
  {
    var tail := s[1..];
    var withHead := Combinations(tail, k - 1);
    var led := Led(s[0], withHead);
    var i :| 0 <= i < |led| && led[i] == c;
    var d := withHead[i];
    CombinationWithin(tail, k - 1, d);
    ConsWithin(d, c, s);
  }

  /** Strictly increasing positions into a pile of `n` cards. */
  predicate Positions(idx: seq<int>, n: int)
  {
    && (forall j :: 0 <= j < |idx| ==> 0 <= idx[j] < n)
    && (forall i, j :: 0 <= i < j < |idx| ==> idx[i] < idx[j])
  }

  /** The cards of `s` at the positions `idx`, in order: a subsequence of `s`. */
  function Pick<T>(s: seq<T>, idx: seq<int>): (r: seq<T>)
    requires forall j :: 0 <= j < |idx| ==> 0 <= idx[j] < |s|
    ensures |r| == |idx| && forall j :: 0 <= j < |idx| ==> r[j] == s[idx[j]]
  {
    seq(|idx|, j requires 0 <= j < |idx| => s[idx[j]])
  }

  /** `r` is a subsequence of `s`: the cards of `s` at some increasing positions, in order. */
  ghost predicate Subsequence<T>(r: seq<T>, s: seq<T>)
  {
    exists idx :: Positions(idx, |s|) && |idx| == |r| && Pick(s, idx) == r
  }

  /** Every pile is a subsequence of itself. */
  lemma SubsequenceOfItself<T>(s: seq<T>)
    ensures Subsequence(s, s)
  {
    var idx := seq(|s|, j => j);
    assert Pick(s, idx) == s;
  }

  /** Dropping the card at position `i` leaves a subsequence. */
  lemma DropOne<T>(s: seq<T>, i: nat)
    requires i < |s|
    ensures Subsequence(s[..i] + s[i + 1..], s)
  {
    var idx := seq(|s| - 1, j => if j < i then j else j + 1);
    assert Pick(s, idx) == s[..i] + s[i + 1..];
  }

  /** A subsequence of a subsequence of `s` is a subsequence of `s`. */
  lemma SubsequenceTransitive<T>(r: seq<T>, q: seq<T>, s: seq<T>)
    requires Subsequence(r, q) && Subsequence(q, s)
    ensures Subsequence(r, s)
  {
    var inner :| Positions(inner, |q|) && |inner| == |r| && Pick(q, inner) == r;
    var outer :| Positions(outer, |s|) && |outer| == |q| && Pick(s, outer) == q;
    var idx := seq(|r|, j requires 0 <= j < |r| => outer[inner[j]]);
    assert Positions(idx, |s|);
    assert Pick(s, idx) == r;
  }

  /** A subsequence of the rest of a pile stays one of the pile, with or without the pile's
      first card in front. */
  lemma SubsequenceExtended<T>(s: seq<T>, rest: seq<T>, lead: bool)
    requires |s| > 0 && Subsequence(rest, s[1..])
    ensures Subsequence((if lead then [s[0]] else []) + rest, s)
  {
    var idx :| Positions(idx, |s| - 1) && |idx| == |rest| && Pick(s[1..], idx) == rest;
    if lead {
      ConsPick(s, idx);
    } else {
      ShiftPick(s, idx);
      assert [] + rest == rest;
    }
  }

  /** Every position one further on. */
  function Shift(idx: seq<int>): (r: seq<int>)
    ensures |r| == |idx| && forall j :: 0 <= j < |idx| ==> r[j] == idx[j] + 1
  {
    seq(|idx|, j requires 0 <= j < |idx| => idx[j] + 1)
  }

  /** Every position one further back. */
  function Unshift(idx: seq<int>): (r: seq<int>)
    ensures |r| == |idx| && forall j :: 0 <= j < |idx| ==> r[j] == idx[j] - 1
  {
    seq(|idx|, j requires 0 <= j < |idx| => idx[j] - 1)
  }

  /** Every subsequence of `k` cards of `s` is among its `k`-element combinations. */
  lemma {:induction false} PickedIsCombination(s: seq<Good>, idx: seq<int>)
    requires Positions(idx, |s|)
    ensures Pick(s, idx) in Combinations(s, |idx|)
    decreases |s|, 1
  {
    if idx == [] {
      assert Pick(s, idx) == [];
    } else if idx[0] == 0 {
      PickedLed(s, idx);
    } else {
      var later := Unshift(idx);
      DropPick(s, idx);
      PickedIsCombination(s[1..], later);
      assert Combinations(s, |idx|)
        == Led(s[0], Combinations(s[1..], |idx| - 1)) + Combinations(s[1..], |idx|);
    }
  }

  /** The subsequences that start at the first card are among the combinations led by it. */
  lemma {:induction false} PickedLed(s: seq<Good>, idx: seq<int>)
    requires Positions(idx, |s|) && |idx| > 0 && idx[0] == 0
    ensures Pick(s, idx) in Combinations(s, |idx|)
    decreases |s|, 0
  {
    var k, rest := |idx|, Unshift(idx[1..]);
    HeadPick(s, idx);
    PickedIsCombination(s[1..], rest);
    var withHead := Combinations(s[1..], k - 1);
    var d := Pick(s[1..], rest);
    assert |rest| == k - 1;
    assert d in withHead;
    var i :| 0 <= i < |withHead| && withHead[i] == d;
    var led := Led(s[0], withHead);
    assert led[i] == Pick(s, idx);
    assert Combinations(s, k) == led + Combinations(s[1..], k);
  }

  /** Positions that skip the first card are positions into the rest of the pile. */
  lemma DropPick(s: seq<Good>, idx: seq<int>)
    requires Positions(idx, |s|) && |idx| > 0 && idx[0] > 0
    ensures Positions(Unshift(idx), |s| - 1) && Pick(s[1..], Unshift(idx)) == Pick(s, idx)
  {
    assert forall j :: 0 < j < |idx| ==> idx[0] < idx[j];
  }

  /** Positions that start at the first card: that card, then positions into the rest. */
  lemma HeadPick(s: seq<Good>, idx: seq<int>)
    requires Positions(idx, |s|) && |idx| > 0 && idx[0] == 0
    ensures Positions(Unshift(idx[1..]), |s| - 1)
    ensures Pick(s, idx) == [s[0]] + Pick(s[1..], Unshift(idx[1..]))
  {
    assert forall j :: 0 < j < |idx| ==> idx[0] < idx[j];
  }

  /** Every `k`-element combination of `s` is a subsequence of `s`: the cards at some `k`
      increasing positions. */
  lemma {:induction false} CombinationPicked(s: seq<Good>, k: nat, c: seq<Good>)
    requires c in Combinations(s, k)
    ensures exists idx :: Positions(idx, |s|) && |idx| == k && Pick(s, idx) == c
    decreases |s|, 1
  {
    if k == 0 {
      assert Pick(s, []) == c;
    } else {
      assert 0 < k <= |s|;
      var tail := s[1..];
      var led := Led(s[0], Combinations(tail, k - 1));
      assert Combinations(s, k) == led + Combinations(tail, k);
      if c in led {
        LedPicked(s, k, c);
      } else {
        CombinationPicked(tail, k, c);
        var later :| Positions(later, |tail|) && |later| == k && Pick(tail, later) == c;
        ShiftPick(s, later);
      }
    }
  }

  /** The combinations led by the first card are subsequences starting there. */
  lemma {:induction false} LedPicked(s: seq<Good>, k: nat, c: seq<Good>)
    requires 0 < k <= |s| && c in Led(s[0], Combinations(s[1..], k - 1))
    ensures exists idx :: Positions(idx, |s|) && |idx| == k && Pick(s, idx) == c
    decreases |s|, 0
  {
    var tail := s[1..];
    var withHead := Combinations(tail, k - 1);
    var led := Led(s[0], withHead);
    var i :| 0 <= i < |led| && led[i] == c;
    var d := withHead[i];
    CombinationPicked(tail, k - 1, d);
    var rest :| Positions(rest, |tail|) && |rest| == k - 1 && Pick(tail, rest) == d;
    ConsPick(s, rest);
    assert c == [s[0]] + d;
  }

  /** Positions into the rest of the pile, moved one on, pick the same cards from the pile. */
  lemma ShiftPick<T>(s: seq<T>, idx: seq<int>)
    requires |s| > 0 && Positions(idx, |s| - 1)
    ensures Positions(Shift(idx), |s|) && Pick(s, Shift(idx)) == Pick(s[1..], idx)
  {
  }

  /** The first position, then positions into the rest moved one on, pick the first card
      followed by what the positions pick from the rest. */
  lemma ConsPick<T>(s: seq<T>, idx: seq<int>)
    requires |s| > 0 && Positions(idx, |s| - 1)
    ensures Positions([0] + Shift(idx), |s|)
    ensures Pick(s, [0] + Shift(idx)) == [s[0]] + Pick(s[1..], idx)
  {
  }

  /** Each card of a pile, on its own, is one of the pile's one-element combinations. */
  lemma SingleCombination(s: seq<Good>, c: Good)
    requires c in s
    ensures [c] in Combinations(s, 1)
  {
    var i :| 0 <= i < |s| && s[i] == c;
    PickedIsCombination(s, [i]);
    assert Pick(s, [i]) == [c];
  }

  /** Putting the same card in front of a pile and of a sub-multiset of it keeps the second
      within the first. */
  lemma ConsWithin(d: seq<Good>, c: seq<Good>, s: seq<Good>)
    requires |s| > 0 && multiset(d) <= multiset(s[1..]) && c == [s[0]] + d
    ensures multiset(c) <= multiset(s)
  {
    assert s == [s[0]] + s[1..];
    assert multiset(c) == multiset{s[0]} + multiset(d);
    assert multiset(s) == multiset{s[0]} + multiset(s[1..]);
  }

  /** A pile without its first card lies within the pile. */
  lemma TailWithin(s: seq<Good>)
    requires |s| > 0
    ensures multiset(s[1..]) <= multiset(s)
  {
    assert s == [s[0]] + s[1..];
  }

  /** The first `i` cards of a pile are a sub-multiset of it. */
  lemma PrefixWithin<T>(s: seq<T>, i: nat)
    requires i <= |s|
    ensures multiset(s[..i]) <= multiset(s)
  {
    assert s == s[..i] + s[i..];
  }

  /** Removing the cards of `cs` one at a time: the next card is still there, and removing
      it extends the removal by one card. */
  lemma RemoveStep<T>(s: seq<T>, cs: seq<T>, i: nat)
    requires multiset(cs) <= multiset(s) && i < |cs|
    ensures multiset(cs[..i]) <= multiset(s) && multiset(cs[..i + 1]) <= multiset(s)
    ensures cs[i] in RemoveEach(s, cs[..i])
    ensures RemoveEach(s, cs[..i + 1]) == RemoveFirst(RemoveEach(s, cs[..i]), cs[i])
  {
    var c := cs[i];
    PrefixWithin(cs, i + 1);
    assert cs[..i + 1] == cs[..i] + [c];
    assert multiset(cs[..i + 1]) == multiset(cs[..i]) + multiset{c};
    assert multiset(cs[..i])[c] + 1 <= multiset(s)[c];
    assert multiset(RemoveEach(s, cs[..i]))[c] > 0;
    assert cs[..i + 1][..i] == cs[..i];
  }

  lemma {:induction false} RepeatMultiset<T>(c: T, n: nat)
    ensures multiset(Repeat(c, n)) == multiset{}[c := n]
  {
    if n > 0 {
      RepeatMultiset(c, n - 1);
      assert Repeat(c, n) == Repeat(c, n - 1) + [c];
    }
  }

  lemma {:induction false} SumConcat(a: seq<int>, b: seq<int>)
    ensures Sum(a + b) == Sum(a) + Sum(b)
    decreases |b|
  {
    if b != [] {
      assert (a + b)[..|a + b| - 1] == a + b[..|b| - 1];
      assert (a + b)[|a + b| - 1] == b[|b| - 1];
      SumConcat(a, b[..|b| - 1]);
      assert Sum(a + b) == Sum(a + b[..|b| - 1]) + b[|b| - 1];
      assert Sum(b) == Sum(b[..|b| - 1]) + b[|b| - 1];
    } else {
      assert a + b == a;
    }
  }

  /** Camels and non-camels split a pile without losing or adding a card. */
  lemma CamelSplit(s: seq<Good>)
    ensures multiset(WithoutCamels(s)) + multiset(OnlyCamels(s)) == multiset(s)
  {
    RepeatMultiset(Camel, multiset(s)[Camel]);
  }

  /** Drawing `k` cards splits the deck into the cards drawn and the cards left. */
  lemma {:induction false} DrawnSplit<T>(deck: seq<T>, k: nat)
    requires k <= |deck|
    ensures multiset(Drawn(deck, k)) + multiset(deck[..|deck| - k]) == multiset(deck)
  {
    if k > 0 {
      DrawnSplit(deck, k - 1);
      DrawnStep(deck, k - 1);
      var left := deck[..|deck| - k];
      assert deck[..|deck| - (k - 1)] == left + [deck[|deck| - k]];
    } else {
      assert deck[..|deck|] == deck;
    }
  }

  /** Drawing `k` cards onto a pile moves them from the deck without loss. */
  lemma DrawOnto<T>(pile: seq<T>, deck: seq<T>, k: nat)
    requires k <= |deck|
    ensures multiset(pile + Drawn(deck, k)) + multiset(deck[..|deck| - k]) == multiset(pile) + multiset(deck)
  {
    DrawnSplit(deck, k);
    assert multiset(pile + Drawn(deck, k)) == multiset(pile) + multiset(Drawn(deck, k));
  }

  /** One more pop appends the next card from the end of the deck. */
  lemma DrawnStep<T>(deck: seq<T>, k: nat)
    requires k < |deck|
    ensures Drawn(deck, k + 1) == Drawn(deck, k) + [deck[|deck| - 1 - k]]
  {
  }

  /** Popping `a` cards and then `b` more is popping `a + b` cards. */
  lemma DrawnConcat<T>(deck: seq<T>, a: nat, b: nat)
    requires a + b <= |deck|
    ensures Drawn(deck, a + b) == Drawn(deck, a) + Drawn(deck[..|deck| - a], b)
  {
  }
}
