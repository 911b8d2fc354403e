/** What the greedy settlement of `calculateBalances` guarantees about the payments it plans:
    every payment exceeds the tolerance and is the smaller of what the debtor still owes and
    what the creditor is still owed; creditors are never paid past their balance; debtors never
    pay more than they owe; payments are emitted debtor-major, creditor-minor, so no pair is
    paid twice. */
module SettlementFacts {
  import opened Seqs
  import opened TripData
  import opened Balances

  lemma SentSnoc(es: seq<Edge>, e: Edge, p: Person)
    ensures Sent(es + [e], p) == Sent(es, p) + (if e.debtor == p then e.amount else 0.0)
    ensures Received(es + [e], p) == Received(es, p) + (if e.creditor == p then e.amount else 0.0)
  {
    assert (es + [e])[..|es|] == es;
  }

  /** One offer either pays nothing or emits one edge from `d` to `c`, of exactly
      `min(remaining, working)`, above the tolerance; the debtor's remainder never goes
      negative. */
  lemma OfferPayment(pre: map<Person, real>, done: seq<Edge>, d: Person, c: Person, remaining: real)
    requires c in pre
    ensures var (es, rest) := Offer(pre, done, d, c, remaining);
            var working := pre[c] - Received(done, c);
            if remaining > Epsilon && working > Epsilon then
              es == done + [Edge(d, c, remaining - rest)]
              && remaining - rest == Min(remaining, working)
              && remaining - rest > Epsilon && rest >= 0.0
            else
              es == done && rest == remaining
  {
  }

  /** A debtor's walk only appends edges, each from that debtor to one of the creditors not yet
      offered, above the tolerance. */
  lemma {:induction false} WalkEdges(pre: map<Person, real>, done: seq<Edge>, d: Person, cs: seq<Person>, j: nat, remaining: real)
    requires j <= |cs| && forall c | c in cs :: c in pre
    decreases |cs| - j
    ensures var r := Walk(pre, done, d, cs, j, remaining);
            |done| <= |r| && r[..|done|] == done
            && forall i | |done| <= i < |r| :: r[i].debtor == d && r[i].creditor in cs[j..] && r[i].amount > Epsilon
  {
    if j < |cs| {
      OfferPayment(pre, done, d, cs[j], remaining);
      var (done', rest) := Offer(pre, done, d, cs[j], remaining);
      WalkEdges(pre, done', d, cs, j + 1, rest);
      var r := Walk(pre, done', d, cs, j + 1, rest);
      assert cs[j + 1..] == cs[j..][1..];
      if done' != done {
        assert r[..|done'|][..|done|] == done;
        assert r[|done|] == done'[|done|];
      }
    }
  }

  /** The plan after `k` turns holds at most one edge per debtor and creditor. */
  lemma {:induction false} PlannedLength(pre: map<Person, real>, ds: seq<Person>, cs: seq<Person>, k: nat)
    requires k <= |ds| && (forall p | p in ds :: p in pre) && forall c | c in cs :: c in pre
    ensures |Planned(pre, ds, cs, k)| <= k * |cs|
  {
    if k > 0 {
      var prev := Planned(pre, ds, cs, k - 1);
      var d := ds[k - 1];
      PlannedLength(pre, ds, cs, k - 1);
      WalkLength(pre, prev, d, cs, 0, Abs(pre[d] - Received(prev, d)));
      OneMoreRound(|prev|, |Planned(pre, ds, cs, k)|, k, |cs|);
    }
  }

  /** Each turn extends the plan the earlier turns emitted. */
  lemma PlannedExtends(pre: map<Person, real>, ds: seq<Person>, cs: seq<Person>, k: nat)
    requires 0 < k <= |ds| && (forall p | p in ds :: p in pre) && forall c | c in cs :: c in pre
    ensures var prev := Planned(pre, ds, cs, k - 1);
            |prev| <= |Planned(pre, ds, cs, k)| && Planned(pre, ds, cs, k)[..|prev|] == prev
  {
    var prev := Planned(pre, ds, cs, k - 1);
    var d := ds[k - 1];
    WalkEdges(pre, prev, d, cs, 0, Abs(pre[d] - Received(prev, d)));
  }

  lemma OneMoreRound(before: nat, after: nat, k: nat, n: nat)
    requires k > 0 && before <= (k - 1) * n && after <= before + n
    ensures after <= k * n
  {
  }

  /** A walk emits at most one edge per creditor offered. */
  lemma {:induction false} WalkLength(pre: map<Person, real>, done: seq<Edge>, d: Person, cs: seq<Person>, j: nat, remaining: real)
    requires j <= |cs| && forall c | c in cs :: c in pre
    decreases |cs| - j
    ensures |Walk(pre, done, d, cs, j, remaining)| <= |done| + (|cs| - j)
  {
    if j < |cs| {
      var (done', rest) := Offer(pre, done, d, cs[j], remaining);
      WalkLength(pre, done', d, cs, j + 1, rest);
    }
  }

  /** The settlement pays each creditor at most once per debtor. */
  lemma SettlementLength(roster: seq<Person>, pre: map<Person, real>)
    requires forall p | p in roster :: p in pre
    ensures |Settlement(roster, pre)| <= |Debtors(roster, pre)| * |Creditors(roster, pre)|
  {
    var ds := Debtors(roster, pre);
    var cs := Creditors(roster, pre);
    GroupMembers(roster, pre, true);
    GroupMembers(roster, pre, false);
    PlannedLength(pre, ds, cs, |ds|);
  }

  /** During a walk the debtor pays at most what it owed at the start, and nobody else pays
      anything. */
  lemma {:induction false} WalkSent(pre: map<Person, real>, done: seq<Edge>, d: Person, cs: seq<Person>, j: nat, remaining: real)
    requires j <= |cs| && forall c | c in cs :: c in pre
    decreases |cs| - j
    requires remaining >= 0.0
    ensures var r := Walk(pre, done, d, cs, j, remaining);
            Sent(done, d) <= Sent(r, d) <= Sent(done, d) + remaining
            && forall p | p != d :: Sent(r, p) == Sent(done, p)
  {
    if j < |cs| {
      OfferPayment(pre, done, d, cs[j], remaining);
      var (done', rest) := Offer(pre, done, d, cs[j], remaining);
      WalkSent(pre, done', d, cs, j + 1, rest);
      if done' != done {
        forall p ensures Sent(done', p) == Sent(done, p) + (if p == d then remaining - rest else 0.0) {
          SentSnoc(done, Edge(d, cs[j], remaining - rest), p);
        }
      }
    }
  }

  /** During a walk, no creditor is paid past its balance after aggregation, and nobody outside
      the creditors receives anything. */
  lemma {:induction false} WalkReceived(pre: map<Person, real>, done: seq<Edge>, d: Person, cs: seq<Person>, j: nat, remaining: real)
    requires j <= |cs| && forall c | c in cs :: c in pre
    decreases |cs| - j
    requires forall c | c in cs :: Received(done, c) <= pre[c]
    ensures var r := Walk(pre, done, d, cs, j, remaining);
            (forall c | c in cs :: Received(r, c) <= pre[c])
            && forall p | p !in cs :: Received(r, p) == Received(done, p)
  {
    if j < |cs| {
      OfferPayment(pre, done, d, cs[j], remaining);
      var (done', rest) := Offer(pre, done, d, cs[j], remaining);
      if done' != done {
        forall p ensures Received(done', p) == Received(done, p) + (if p == cs[j] then remaining - rest else 0.0) {
          SentSnoc(done, Edge(d, cs[j], remaining - rest), p);
        }
      }
      WalkReceived(pre, done', d, cs, j + 1, rest);
    }
  }

  /** Position of `x` in `s`, or `|s|` when absent. */
  function Rank<T(==)>(s: seq<T>, x: T): (n: nat)
    ensures n <= |s| && (n < |s| <==> x in s)
    ensures x in s ==> n == IndexOf(s, x)
  {
    if x in s then IndexOf(s, x) else |s|
  }

  /** Edge `a` comes before edge `b` in debtor-major, creditor-minor order. */
  ghost predicate EdgeBefore(ds: seq<Person>, cs: seq<Person>, a: Edge, b: Edge) {
    Rank(ds, a.debtor) < Rank(ds, b.debtor)
    || (a.debtor == b.debtor && Rank(cs, a.creditor) < Rank(cs, b.creditor))
  }

  ghost predicate Ordered(ds: seq<Person>, cs: seq<Person>, es: seq<Edge>) {
    forall i, i' | 0 <= i < i' < |es| :: EdgeBefore(ds, cs, es[i], es[i'])
  }

  lemma {:induction false} WalkOrder(pre: map<Person, real>, ds: seq<Person>, done: seq<Edge>, d: Person, cs: seq<Person>, j: nat, remaining: real)
    requires j <= |cs| && forall c | c in cs :: c in pre
    requires NoDup(cs) && Ordered(ds, cs, done)
    requires forall i | 0 <= i < |done| ::
               Rank(ds, done[i].debtor) < Rank(ds, d) || (done[i].debtor == d && Rank(cs, done[i].creditor) < j)
    ensures Ordered(ds, cs, Walk(pre, done, d, cs, j, remaining))
    decreases |cs| - j
  {
    if j < |cs| {
      OfferPayment(pre, done, d, cs[j], remaining);
      var (done', rest) := Offer(pre, done, d, cs[j], remaining);
      IndexOfNoDup(cs, j);
      assert forall i | 0 <= i < |done'| ::
               Rank(ds, done'[i].debtor) < Rank(ds, d) || (done'[i].debtor == d && Rank(cs, done'[i].creditor) < j + 1);
      WalkOrder(pre, ds, done', d, cs, j + 1, rest);
    }
  }

  /** After the first `k` debtors' turns, every edge runs from one of them to a creditor and
      exceeds the tolerance. */
  lemma {:induction false} PlannedEdges(pre: map<Person, real>, ds: seq<Person>, cs: seq<Person>, k: nat)
    requires k <= |ds| && (forall p | p in ds :: p in pre) && forall c | c in cs :: c in pre
    ensures forall e | e in Planned(pre, ds, cs, k) :: e.debtor in ds[..k] && e.creditor in cs && e.amount > Epsilon
  {
    if k > 0 {
      var prev := Planned(pre, ds, cs, k - 1);
      var d := ds[k - 1];
      var r := Planned(pre, ds, cs, k);
      PlannedEdges(pre, ds, cs, k - 1);
      WalkEdges(pre, prev, d, cs, 0, Abs(pre[d] - Received(prev, d)));
      forall e | e in r ensures e.debtor in ds[..k] && e.creditor in cs && e.amount > Epsilon {
        var i :| 0 <= i < |r| && r[i] == e;
        if i < |prev| {
          assert r[..|prev|][i] == e;
          assert e in prev && ds[..k - 1] <= ds[..k];
        } else {
          assert e.debtor == ds[..k][k - 1];
        }
      }
    }
  }

  /** No creditor is paid past its balance after aggregation, and nobody else receives
      anything. */
  lemma {:induction false} PlannedReceived(pre: map<Person, real>, ds: seq<Person>, cs: seq<Person>, k: nat)
    requires k <= |ds| && (forall p | p in ds :: p in pre) && forall c | c in cs :: c in pre
    requires forall c | c in cs :: pre[c] >= 0.0
    ensures forall c | c in cs :: Received(Planned(pre, ds, cs, k), c) <= pre[c]
    ensures forall p | p !in cs :: Received(Planned(pre, ds, cs, k), p) == 0.0
  {
    if k > 0 {
      var prev := Planned(pre, ds, cs, k - 1);
      var d := ds[k - 1];
      PlannedReceived(pre, ds, cs, k - 1);
      WalkReceived(pre, prev, d, cs, 0, Abs(pre[d] - Received(prev, d)));
    }
  }

  /** Each debtor, walked once, pays in total at most what it owed after aggregation; nobody
      who has not had a turn pays anything. */
  lemma {:induction false} PlannedSent(pre: map<Person, real>, ds: seq<Person>, cs: seq<Person>, k: nat)
    requires k <= |ds| && (forall p | p in ds :: p in pre) && forall c | c in cs :: c in pre
    requires forall c | c in cs :: pre[c] >= 0.0
    requires NoDup(ds) && forall d | d in ds :: d !in cs
    ensures forall d | d in ds[..k] :: Sent(Planned(pre, ds, cs, k), d) <= Abs(pre[d])
    ensures forall p | p !in ds[..k] :: Sent(Planned(pre, ds, cs, k), p) == 0.0
  {
    if k > 0 {
      var d := ds[k - 1];
      var prev := Planned(pre, ds, cs, k - 1);
      PlannedSent(pre, ds, cs, k - 1);
      PlannedReceivedNone(pre, ds, cs, k - 1, d);
      PrefixSnoc(ds, k);
      PlannedSentStep(pre, prev, d, cs, ds[..k - 1], ds[..k]);
      assert Planned(pre, ds, cs, k) == Turn(pre, prev, d, cs);
    }
  }

  /** A debtor, who is never a creditor, has received nothing after any number of turns. */
  lemma PlannedReceivedNone(pre: map<Person, real>, ds: seq<Person>, cs: seq<Person>, k: nat, d: Person)
    requires k <= |ds| && (forall p | p in ds :: p in pre) && forall c | c in cs :: c in pre
    requires forall c | c in cs :: pre[c] >= 0.0
    requires d !in cs
    ensures Received(Planned(pre, ds, cs, k), d) == 0.0
  {
    PlannedReceived(pre, ds, cs, k);
  }

  /** The first `k` debtors are the first `k - 1` and one more, who is new and has a balance. */
  lemma PrefixSnoc(ds: seq<Person>, k: nat)
    requires 0 < k <= |ds| && NoDup(ds)
    ensures ds[..k] == ds[..k - 1] + [ds[k - 1]] && ds[k - 1] !in ds[..k - 1] && ds[k - 1] in ds
    ensures forall p | p in ds[..k - 1] :: p in ds
  {
  }

  /** The turn of a debtor `d` who has received nothing and sent nothing so far adds at most
      its debt to what it sends and nothing to what anybody else sends; `before` and `after`
      are the debtors who have had their turn. */
  lemma PlannedSentStep(pre: map<Person, real>, prev: seq<Edge>, d: Person, cs: seq<Person>,
                        before: seq<Person>, after: seq<Person>)
    requires d in pre && (forall c | c in cs :: c in pre) && forall p | p in before :: p in pre
    requires after == before + [d] && d !in before && Received(prev, d) == 0.0
    requires forall x | x in before :: Sent(prev, x) <= Abs(pre[x])
    requires forall p | p !in before :: Sent(prev, p) == 0.0
    ensures var next := Walk(pre, prev, d, cs, 0, Abs(pre[d] - Received(prev, d)));
            && (forall x | x in after :: Sent(next, x) <= Abs(pre[x]))
            && (forall p | p !in after :: Sent(next, p) == 0.0)
  {
    WalkSent(pre, prev, d, cs, 0, Abs(pre[d] - Received(prev, d)));
  }

  /** The first `k` turns emit edges in debtor-major, creditor-minor order. */
  lemma {:induction false} PlannedOrder(pre: map<Person, real>, ds: seq<Person>, cs: seq<Person>, k: nat)
    requires k <= |ds| && (forall p | p in ds :: p in pre) && forall c | c in cs :: c in pre
    requires NoDup(ds) && NoDup(cs)
    ensures var r := Planned(pre, ds, cs, k);
            Ordered(ds, cs, r) && forall i | 0 <= i < |r| :: Rank(ds, r[i].debtor) < k
  {
    if k > 0 {
      var prev := Planned(pre, ds, cs, k - 1);
      var d := ds[k - 1];
      PlannedOrder(pre, ds, cs, k - 1);
      IndexOfNoDup(ds, k - 1);
      assert d in ds;
      PlannedOrderStep(pre, ds, prev, d, cs, k - 1);
      assert Planned(pre, ds, cs, k) == Turn(pre, prev, d, cs);
    }
  }

  /** The turn of the debtor of rank `n`, after edges of earlier debtors only, keeps the order. */
  lemma PlannedOrderStep(pre: map<Person, real>, ds: seq<Person>, prev: seq<Edge>, d: Person, cs: seq<Person>, n: nat)
    requires d in pre && (forall c | c in cs :: c in pre) && NoDup(cs)
    requires Rank(ds, d) == n
    requires Ordered(ds, cs, prev) && forall i | 0 <= i < |prev| :: Rank(ds, prev[i].debtor) < n
    ensures var r := Turn(pre, prev, d, cs);
            Ordered(ds, cs, r) && forall i | 0 <= i < |r| :: Rank(ds, r[i].debtor) < n + 1
  {
    var remaining := Abs(pre[d] - Received(prev, d));
    var r := Turn(pre, prev, d, cs);
    WalkOrder(pre, ds, prev, d, cs, 0, remaining);
    WalkEdges(pre, prev, d, cs, 0, remaining);
    forall i | 0 <= i < |r| ensures Rank(ds, r[i].debtor) < n + 1 {
      if i < |prev| {
        assert r[..|prev|][i] == r[i];
      }
    }
  }


  /** The roster entries passing the creditor (or debtor) test, in roster order. */
  function Kept(roster: seq<Person>, pre: map<Person, real>, creditor: bool): seq<Person> {
    if roster == [] then [] else Head(roster, pre, creditor) + Kept(roster[1..], pre, creditor)
  }

  /** The roster head as a group of at most one. */
  function Head(roster: seq<Person>, pre: map<Person, real>, creditor: bool): seq<Person>
    requires roster != []
  {
    if roster[0] in pre && InGroup(pre[roster[0]], creditor) then [roster[0]] else []
  }

  lemma {:induction false} GroupIsKept(roster: seq<Person>, pre: map<Person, real>, creditor: bool)
    requires forall p | p in roster :: p in pre
    ensures Group(InitialValues(roster, pre), creditor) == Kept(roster, pre, creditor)
  {
    if roster != [] {
      assert InitialValues(roster, pre)[1..] == InitialValues(roster[1..], pre);
      GroupIsKept(roster[1..], pre, creditor);
    }
  }

  lemma {:induction false} KeptMembers(roster: seq<Person>, pre: map<Person, real>, creditor: bool)
    ensures forall x | x in Kept(roster, pre, creditor) :: x in roster
  {
    if roster != [] {
      KeptMembers(roster[1..], pre, creditor);
    }
  }

  lemma RankTail(roster: seq<Person>, x: Person)
    requires NoDup(roster) && roster != []
    ensures Rank(roster, roster[0]) == 0
    ensures x in roster[1..] ==> Rank(roster, x) == 1 + Rank(roster[1..], x)
  {
    if x in roster[1..] {
      assert roster[1 + IndexOf(roster[1..], x)] == x;
    }
  }

  /** The creditor and debtor groups keep the roster order, so each lists a person at most
      once. */
  lemma {:induction false} KeptOrder(roster: seq<Person>, pre: map<Person, real>, creditor: bool, i: nat, j: nat)
    requires NoDup(roster)
    requires i < j < |Kept(roster, pre, creditor)|
    ensures Rank(roster, Kept(roster, pre, creditor)[i]) < Rank(roster, Kept(roster, pre, creditor)[j])
  {
    var n := |Head(roster, pre, creditor)|;
    KeptLater(roster, pre, creditor, j);
    if i < n {
      KeptOrderHead(roster, pre, creditor, j);
    } else {
      NoDupTail(roster);
      KeptOrder(roster[1..], pre, creditor, i - n, j - n);
      KeptOrderStep(roster, pre, creditor, i, j);
    }
  }

  lemma NoDupTail<T>(s: seq<T>)
    requires NoDup(s) && s != []
    ensures NoDup(s[1..])
  {
  }

  /** The roster head, when in the group, comes first. */
  lemma KeptOrderHead(roster: seq<Person>, pre: map<Person, real>, creditor: bool, j: nat)
    requires NoDup(roster)
    requires roster != [] && Head(roster, pre, creditor) == [roster[0]] && 1 <= j < |Kept(roster, pre, creditor)|
    requires Kept(roster, pre, creditor)[j] in roster[1..]
    ensures Rank(roster, Kept(roster, pre, creditor)[0]) < Rank(roster, Kept(roster, pre, creditor)[j])
  {
    var g := Kept(roster, pre, creditor);
    assert g == [roster[0]] + Kept(roster[1..], pre, creditor);
    RankTail(roster, g[j]);
  }

  /** Two entries past the head keep the order they have in the rest's group. */
  lemma KeptOrderStep(roster: seq<Person>, pre: map<Person, real>, creditor: bool, i: nat, j: nat)
    requires NoDup(roster)
    requires roster != [] && |Head(roster, pre, creditor)| <= i < j < |Kept(roster, pre, creditor)|
    requires var n := |Head(roster, pre, creditor)|;
             var g' := Kept(roster[1..], pre, creditor);
             j - n < |g'| && Rank(roster[1..], g'[i - n]) < Rank(roster[1..], g'[j - n])
    ensures Rank(roster, Kept(roster, pre, creditor)[i]) < Rank(roster, Kept(roster, pre, creditor)[j])
  {
    var g := Kept(roster, pre, creditor);
    KeptLater(roster, pre, creditor, i);
    KeptLater(roster, pre, creditor, j);
    RankTail(roster, g[i]);
    RankTail(roster, g[j]);
  }

  /** An entry of a group past the roster head's own place is the matching entry of the rest's
      group. */
  lemma KeptLater(roster: seq<Person>, pre: map<Person, real>, creditor: bool, i: nat)
    requires roster != [] && |Head(roster, pre, creditor)| <= i < |Kept(roster, pre, creditor)|
    ensures var n := |Head(roster, pre, creditor)|;
            && i - n < |Kept(roster[1..], pre, creditor)|
            && Kept(roster, pre, creditor)[i] == Kept(roster[1..], pre, creditor)[i - n]
            && Kept(roster, pre, creditor)[i] in roster[1..]
  {
    var head := Head(roster, pre, creditor);
    var g' := Kept(roster[1..], pre, creditor);
    assert Kept(roster, pre, creditor) == head + g';
    assert (head + g')[i] == g'[i - |head|];
    KeptMember(roster[1..], pre, creditor, i - |head|);
  }

  lemma KeptMember(roster: seq<Person>, pre: map<Person, real>, creditor: bool, k: nat)
    requires k < |Kept(roster, pre, creditor)|
    ensures Kept(roster, pre, creditor)[k] in roster
  {
    KeptMembers(roster, pre, creditor);
    assert Kept(roster, pre, creditor)[k] in Kept(roster, pre, creditor);
  }

  lemma KeptOrdered(roster: seq<Person>, pre: map<Person, real>, creditor: bool)
    requires NoDup(roster)
    ensures var g := Kept(roster, pre, creditor);
            forall i, j | 0 <= i < j < |g| :: Rank(roster, g[i]) < Rank(roster, g[j])
  {
    forall i, j | 0 <= i < j < |Kept(roster, pre, creditor)| {
      KeptOrder(roster, pre, creditor, i, j);
    }
  }

  lemma OrderedNoDup(roster: seq<Person>, g: seq<Person>)
    requires forall i, j | 0 <= i < j < |g| :: Rank(roster, g[i]) < Rank(roster, g[j])
    ensures NoDup(g)
  {
  }

  /** What the whole settlement plan guarantees. Every edge runs from a debtor to a creditor
      (so never from a person to themself) and exceeds the tolerance; a creditor receives at most
      its balance after aggregation and nobody else receives anything; a debtor pays at most its
      debt and nobody else pays anything; edges come debtor-major, creditor-minor, so no
      debtor pays the same creditor twice. */
  lemma SettlementSound(roster: seq<Person>, pre: map<Person, real>)
    requires NoDup(roster) && forall p | p in roster :: p in pre
    ensures var es := Settlement(roster, pre);
            var ds := Debtors(roster, pre);
            var cs := Creditors(roster, pre);
            && (forall e | e in es :: e.debtor in ds && e.creditor in cs && e.debtor != e.creditor && e.amount > Epsilon)
            && (forall p | p in roster && p in cs :: 0.0 <= pre[p] - Received(es, p))
            && (forall p | p !in cs :: Received(es, p) == 0.0)
            && (forall p | p in ds :: Sent(es, p) <= -pre[p])
            && (forall p | p !in ds :: Sent(es, p) == 0.0)
            && Ordered(ds, cs, es)
            && (forall i, j | 0 <= i < j < |es| :: (es[i].debtor, es[i].creditor) != (es[j].debtor, es[j].creditor))
  {
    var es := Settlement(roster, pre);
    var ds := Debtors(roster, pre);
    var cs := Creditors(roster, pre);
    GroupMembers(roster, pre, true);
    GroupMembers(roster, pre, false);
    GroupIsKept(roster, pre, true);
    GroupIsKept(roster, pre, false);
    KeptOrdered(roster, pre, true);
    KeptOrdered(roster, pre, false);
    assert ds == Group(InitialValues(roster, pre), false) && cs == Group(InitialValues(roster, pre), true);
    OrderedNoDup(roster, ds);
    OrderedNoDup(roster, cs);
    PlannedEdges(pre, ds, cs, |ds|);
    PlannedReceived(pre, ds, cs, |ds|);
    PlannedSent(pre, ds, cs, |ds|);
    PlannedOrder(pre, ds, cs, |ds|);
    assert ds[..|ds|] == ds;
    forall i, j | 0 <= i < j < |es| ensures (es[i].debtor, es[i].creditor) != (es[j].debtor, es[j].creditor) {
      assert EdgeBefore(ds, cs, es[i], es[j]);
    }
  }

  /** Every creditor in `cs` is owed at most the tolerance once the edges `es` are paid. */
  ghost predicate Exhausted(pre: map<Person, real>, es: seq<Edge>, cs: seq<Person>)
    requires forall c | c in cs :: c in pre
  {
    forall c | c in cs :: pre[c] - Received(es, c) <= Epsilon
  }

  /** Appending edges of positive amount never lowers what anybody pays or receives. */
  lemma {:induction false} PaidGrows(es: seq<Edge>, n: nat, p: Person)
    requires n <= |es| && forall i | n <= i < |es| :: es[i].amount > 0.0
    ensures Sent(es[..n], p) <= Sent(es, p) && Received(es[..n], p) <= Received(es, p)
    decreases |es|
  {
    if n < |es| {
      var init := es[..|es| - 1];
      assert init[..n] == es[..n];
      PaidGrows(init, n, p);
      assert es[|es| - 1].amount > 0.0;
    } else {
      assert es[..n] == es;
    }
  }

  /** Creditors owed at most the tolerance stay so as positive edges are appended. */
  lemma ExhaustedGrows(pre: map<Person, real>, es: seq<Edge>, n: nat, cs: seq<Person>)
    requires n <= |es| && forall i | n <= i < |es| :: es[i].amount > 0.0
    requires (forall c | c in cs :: c in pre) && Exhausted(pre, es[..n], cs)
    ensures Exhausted(pre, es, cs)
  {
    forall c | c in cs ensures pre[c] - Received(es, c) <= Epsilon {
      PaidGrows(es, n, c);
    }
  }

  /** A debtor with at most the tolerance left to pay pays nobody. */
  lemma {:induction false} WalkIdle(pre: map<Person, real>, done: seq<Edge>, d: Person, cs: seq<Person>, j: nat, remaining: real)
    requires j <= |cs| && forall c | c in cs :: c in pre
    requires remaining <= Epsilon
    decreases |cs| - j
    ensures Walk(pre, done, d, cs, j, remaining) == done
  {
    if j < |cs| {
      WalkIdle(pre, done, d, cs, j + 1, remaining);
    }
  }

  /** At the end of a walk the debtor has paid all it owed at the start but at most the
      tolerance, or else every creditor it was offered is owed at most the tolerance. */
  lemma {:induction false} WalkProgress(pre: map<Person, real>, done: seq<Edge>, d: Person, cs: seq<Person>, j: nat, remaining: real)
    requires j <= |cs| && forall c | c in cs :: c in pre
    decreases |cs| - j
    ensures var r := Walk(pre, done, d, cs, j, remaining);
            remaining - (Sent(r, d) - Sent(done, d)) <= Epsilon || Exhausted(pre, r, cs[j..])
  {
    if j < |cs| {
      var c := cs[j];
      var (done', rest) := Offer(pre, done, d, c, remaining);
      var r := Walk(pre, done', d, cs, j + 1, rest);
      assert r == Walk(pre, done, d, cs, j, remaining);
      WalkProgress(pre, done', d, cs, j + 1, rest);
      WalkEdges(pre, done', d, cs, j + 1, rest);
      PaidGrows(r, |done'|, c);
      assert cs[j..] == [c] + cs[j + 1..];
      if done' != done {
        SentSnoc(done, Edge(d, c, remaining - rest), d);
        SentSnoc(done, Edge(d, c, remaining - rest), c);
        if rest <= Epsilon {
          WalkIdle(pre, done', d, cs, j + 1, rest);
        }
      } else if remaining <= Epsilon {
        WalkIdle(pre, done', d, cs, j + 1, rest);
      }
    }
  }

  /** After the first `k` turns each of those debtors has paid its debt but at most the
      tolerance, or else every creditor is owed at most the tolerance. */
  lemma {:induction false} PlannedProgress(pre: map<Person, real>, ds: seq<Person>, cs: seq<Person>, k: nat)
    requires k <= |ds| && (forall p | p in ds :: p in pre) && forall c | c in cs :: c in pre
    requires forall c | c in cs :: pre[c] >= 0.0
    requires NoDup(ds) && forall d | d in ds :: d !in cs
    ensures var r := Planned(pre, ds, cs, k);
            forall p | p in ds[..k] :: Sent(r, p) >= -pre[p] - Epsilon || Exhausted(pre, r, cs)
  {
    if k > 0 {
      var prev := Planned(pre, ds, cs, k - 1);
      var d := ds[k - 1];
      var r := Planned(pre, ds, cs, k);
      PlannedProgress(pre, ds, cs, k - 1);
      PlannedReceivedNone(pre, ds, cs, k - 1, d);
      PlannedSent(pre, ds, cs, k - 1);
      PrefixSnoc(ds, k);
      PlannedProgressStep(pre, prev, r, d, cs, ds[..k - 1], ds[..k]);
    }
  }

  /** The turn of debtor `d`, who has neither paid nor received anything yet, after the turns
      of the debtors `before`: `d` ends within the tolerance of its debt unless the creditors
      are exhausted, and what held for the debtors `before` still holds. */
  lemma PlannedProgressStep(pre: map<Person, real>, prev: seq<Edge>, r: seq<Edge>, d: Person,
                            cs: seq<Person>, before: seq<Person>, after: seq<Person>)
    requires d in pre && (forall c | c in cs :: c in pre) && forall p | p in before :: p in pre
    requires r == Turn(pre, prev, d, cs) && after == before + [d]
    requires Received(prev, d) == 0.0 && Sent(prev, d) == 0.0
    requires forall p | p in before :: Sent(prev, p) >= -pre[p] - Epsilon || Exhausted(pre, prev, cs)
    ensures forall p | p in after :: Sent(r, p) >= -pre[p] - Epsilon || Exhausted(pre, r, cs)
  {
    var remaining := Abs(pre[d] - Received(prev, d));
    WalkProgress(pre, prev, d, cs, 0, remaining);
    WalkEdges(pre, prev, d, cs, 0, remaining);
    assert cs[0..] == cs;
    assert r[..|prev|] == prev;
    if Exhausted(pre, prev, cs) {
      ExhaustedGrows(pre, r, |prev|, cs);
    }
    forall p | p in before ensures Sent(r, p) >= -pre[p] - Epsilon || Exhausted(pre, r, cs) {
      PaidGrows(r, |prev|, p);
    }
  }

  /** The settlement makes progress: every debtor pays its debt but at most the tolerance,
      unless at the end every creditor is owed at most the tolerance. Together with
      `SettlementSound` (no debtor pays more than its debt), a debtor is then settled to
      within the tolerance; `UnpaidDebtor` shows the second case happens. */
  lemma SettlementProgress(roster: seq<Person>, pre: map<Person, real>)
    requires NoDup(roster) && forall p | p in roster :: p in pre
    ensures var es := Settlement(roster, pre);
            var cs := Creditors(roster, pre);
            forall d | d in Debtors(roster, pre) ::
              Sent(es, d) >= -pre[d] - Epsilon || forall c | c in cs :: pre[c] - Received(es, c) <= Epsilon
  {
    var es := Settlement(roster, pre);
    var ds := Debtors(roster, pre);
    var cs := Creditors(roster, pre);
    GroupMembers(roster, pre, true);
    GroupMembers(roster, pre, false);
    GroupIsKept(roster, pre, true);
    GroupIsKept(roster, pre, false);
    KeptOrdered(roster, pre, false);
    assert ds == Group(InitialValues(roster, pre), false) && cs == Group(InitialValues(roster, pre), true);
    OrderedNoDup(roster, ds);
    PlannedProgress(pre, ds, cs, |ds|);
    assert ds[..|ds|] == ds;
  }
}
