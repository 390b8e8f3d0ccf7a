/** Choosing the latest bundle of every sandbox (scripts/hardware_environment_driver.py). */
module LatestBundles {
  import opened Common

  /** A bundle as listed, with the sandbox IDs of its runtime targets. */
  datatype Listed = Listed(targets: seq<string>, generation: int, content: string)

  /** A bundle with its one sandbox, if its targets name exactly one. */
  datatype Bundle = Bundle(sandbox: Option<string>, generation: int, content: string)

  /** The sandbox ID is taken without surrounding whitespace and must not be blank. */
  function Read(b: Listed): Bundle {
    var id := if |b.targets| == 1 then Strip(b.targets[0]) else "";
    Bundle(if id == "" then None else Some(id), b.generation, b.content)
  }

  function ReadAll(list: seq<Listed>): (bs: seq<Bundle>)
    ensures |bs| == |list| && forall i :: 0 <= i < |bs| ==> bs[i] == Read(list[i])
  {
    seq(|list|, i requires 0 <= i < |list| => Read(list[i]))
  }

  ghost predicate Same(a: Bundle, b: Bundle) {
    a.sandbox.Some? && a.sandbox == b.sandbox
  }

  /** Among the first `n` bundles, number `i` is newer than every other one of its sandbox. */
  ghost predicate Newest(bs: seq<Bundle>, i: int, n: int) {
    && 0 <= i < n <= |bs| && bs[i].sandbox.Some?
    && forall k :: 0 <= k < n && k != i && Same(bs[i], bs[k]) ==> bs[k].generation < bs[i].generation
  }

  ghost predicate Repeats(bs: seq<Bundle>, i: int, j: int) {
    Newest(bs, i, j) && j < |bs| && Same(bs[i], bs[j]) && bs[i].generation == bs[j].generation
  }

  /** Bundle `j` is malformed, or repeats the generation of the newest bundle before it. */
  ghost predicate Offends(bs: seq<Bundle>, j: int) {
    0 <= j < |bs| && (bs[j].sandbox.None? || bs[j].generation <= 0 || exists i :: Repeats(bs, i, j))
  }

  ghost predicate NewestOf(bs: seq<Bundle>, n: int, s: string, b: Bundle, i: int) {
    Newest(bs, i, n) && bs[i].sandbox == Some(s) && bs[i] == b
  }

  ghost predicate HasNewest(bs: seq<Bundle>, n: int, s: string, b: Bundle) {
    exists i :: NewestOf(bs, n, s, b, i)
  }

  /** The map holds the newest bundle of every sandbox among the first `n`. */
  ghost predicate Holds(bs: seq<Bundle>, n: nat, latest: map<string, Bundle>) {
    && n <= |bs|
    && (forall s :: s in latest ==> HasNewest(bs, n, s, latest[s]))
    && (forall k :: 0 <= k < n ==> bs[k].sandbox.Some? && bs[k].sandbox.value in latest)
  }

  lemma NewestIsOne(bs: seq<Bundle>, i: int, j: int, n: int)
    requires Newest(bs, i, n) && Newest(bs, j, n) && Same(bs[i], bs[j])
    ensures i == j
  {
    assert Same(bs[j], bs[i]);
  }

  lemma AddedIsNewest(bs: seq<Bundle>, n: nat, s: string, i: int)
    requires n < |bs| && bs[n].sandbox == Some(s)
    requires Newest(bs, i, n) && bs[i].sandbox == Some(s) && bs[i].generation < bs[n].generation
    ensures Newest(bs, n, n + 1)
  {
    forall k | 0 <= k < n && Same(bs[n], bs[k]) ensures bs[k].generation < bs[n].generation {
      assert Same(bs[i], bs[k]);
    }
  }

  lemma FirstIsNewest(bs: seq<Bundle>, n: nat, latest: map<string, Bundle>)
    requires n < |bs| && Holds(bs, n, latest) && bs[n].sandbox.Some? && bs[n].sandbox.value !in latest
    ensures Newest(bs, n, n + 1)
  {
    forall k | 0 <= k < n ensures !Same(bs[n], bs[k]) { assert bs[k].sandbox.value in latest; }
  }

  lemma AddBundle(bs: seq<Bundle>, n: nat, latest: map<string, Bundle>, t: string, next: map<string, Bundle>)
    requires n < |bs| && bs[n].sandbox.Some? && Holds(bs, n, latest) && t in next
    requires
      var s := bs[n].sandbox.value;
      && (s in latest ==> latest[s].generation != bs[n].generation)
      && next == if s in latest && bs[n].generation < latest[s].generation then latest else latest[s := bs[n]]
    ensures HasNewest(bs, n + 1, t, next[t])
  {
    var s := bs[n].sandbox.value;
    if t in latest {
      var i :| NewestOf(bs, n, t, latest[t], i);
      if t != s || bs[n].generation < latest[s].generation {
        assert NewestOf(bs, n + 1, t, next[t], i);
      } else {
        AddedIsNewest(bs, n, s, i);
        assert NewestOf(bs, n + 1, t, next[t], n);
      }
    } else {
      FirstIsNewest(bs, n, latest);
      assert NewestOf(bs, n + 1, t, next[t], n);
    }
  }

  lemma HoldsOneMore(bs: seq<Bundle>, n: nat, latest: map<string, Bundle>, next: map<string, Bundle>)
    requires n < |bs| && bs[n].sandbox.Some? && Holds(bs, n, latest)
    requires
      var s := bs[n].sandbox.value;
      && (s in latest ==> latest[s].generation != bs[n].generation)
      && next == if s in latest && bs[n].generation < latest[s].generation then latest else latest[s := bs[n]]
    ensures Holds(bs, n + 1, next)
  {
    forall t | t in next ensures HasNewest(bs, n + 1, t, next[t]) { AddBundle(bs, n, latest, t, next); }
  }

  lemma OffendsExactlyWhen(bs: seq<Bundle>, j: nat, latest: map<string, Bundle>)
    requires j < |bs| && Holds(bs, j, latest) && bs[j].sandbox.Some? && bs[j].generation > 0
    ensures
      Offends(bs, j) <==>
      bs[j].sandbox.value in latest && latest[bs[j].sandbox.value].generation == bs[j].generation
  {
    var s := bs[j].sandbox.value;
    if s in latest {
      var i :| NewestOf(bs, j, s, latest[s], i);
      if bs[i].generation == bs[j].generation { assert Repeats(bs, i, j); }
      forall k | Repeats(bs, k, j) ensures k == i { NewestIsOne(bs, k, i, j); }
    } else {
      forall k ensures !Repeats(bs, k, j) {
        if 0 <= k < j { assert bs[k].sandbox.value in latest; }
      }
    }
  }

  /** One round of the loop: nothing when the bundle is malformed or repeats the newest generation. */
  function Add(latest: map<string, Bundle>, b: Bundle): Option<map<string, Bundle>> {
    if b.sandbox.None? || b.generation <= 0 then None
    else
      var s := b.sandbox.value;
      if s in latest && b.generation == latest[s].generation then None
      else if s !in latest || b.generation > latest[s].generation then Some(latest[s := b])
      else Some(latest)
  }

  function AddAll(bs: seq<Bundle>, n: nat): Option<map<string, Bundle>>
    requires n <= |bs|
  {
    if n == 0 then Some(map[])
    else
      match AddAll(bs, n - 1)
      case None => None
      case Some(latest) => Add(latest, bs[n - 1])
  }

  lemma AddExactlyWhen(bs: seq<Bundle>, j: nat, latest: map<string, Bundle>)
    requires j < |bs| && Holds(bs, j, latest)
    ensures
      match Add(latest, bs[j])
      case None => Offends(bs, j)
      case Some(next) => Holds(bs, j + 1, next) && !Offends(bs, j)
  {
    if bs[j].sandbox.Some? && bs[j].generation > 0 {
      OffendsExactlyWhen(bs, j, latest);
      var next := Add(latest, bs[j]);
      if next.Some? { HoldsOneMore(bs, j, latest, next.value); }
    }
  }

  lemma {:induction false} StaysNone(bs: seq<Bundle>, n: nat, m: nat)
    requires n <= m <= |bs| && AddAll(bs, n).None?
    ensures AddAll(bs, m).None?
  {
    if n < m { StaysNone(bs, n, m - 1); }
  }

  ghost predicate OffendsBefore(bs: seq<Bundle>, n: nat) {
    exists j :: j < n && Offends(bs, j)
  }

  lemma OffendsBeforeGrows(bs: seq<Bundle>, n: nat)
    ensures OffendsBefore(bs, n + 1) <==> OffendsBefore(bs, n) || Offends(bs, n)
  {
    if Offends(bs, n) {
      assert n < n + 1 && Offends(bs, n);
    } else if OffendsBefore(bs, n) {
      var j :| j < n && Offends(bs, j);
      assert j < n + 1;
    }
  }

  lemma {:induction false} AddAllExactlyWhen(bs: seq<Bundle>, n: nat)
    requires n <= |bs|
    ensures
      match AddAll(bs, n)
      case None => OffendsBefore(bs, n)
      case Some(latest) => Holds(bs, n, latest) && !OffendsBefore(bs, n)
  {
    if n > 0 {
      AddAllExactlyWhen(bs, n - 1);
      var before := AddAll(bs, n - 1);
      OffendsBeforeGrows(bs, n - 1);
      if before.Some? { AddExactlyWhen(bs, n - 1, before.value); }
    }
  }

  /** The loop, over bundles whose sandbox has been read. */
  method ChooseAmong(bs: seq<Bundle>) returns (result: Option<map<string, Bundle>>)
    ensures result == AddAll(bs, |bs|)
  {
    var latest: map<string, Bundle> := map[];
    for j := 0 to |bs|
      invariant AddAll(bs, j) == Some(latest)
    {
      var b := bs[j];
      if b.sandbox.None? || b.generation <= 0 {
        StaysNone(bs, j + 1, |bs|);
        return None;
      }
      var s := b.sandbox.value;
      if s in latest && b.generation == latest[s].generation {
        StaysNone(bs, j + 1, |bs|);
        return None;
      }
      if s !in latest || b.generation > latest[s].generation {
        latest := latest[s := b];
      }
    }
    result := Some(latest);
  }

  /** Succeeds exactly when no bundle offends, and then maps every sandbox to its one newest bundle. */
  method Choose(list: seq<Listed>) returns (result: Option<map<string, Bundle>>)
    ensures result.None? <==> exists j :: Offends(ReadAll(list), j)
    ensures result.Some? ==> Holds(ReadAll(list), |list|, result.value)
  {
    var bs := ReadAll(list);
    AddAllExactlyWhen(bs, |bs|);
    result := ChooseAmong(bs);
  }

  // ---------------------------------------------------------------- when the order matters

  ghost predicate Fails(bs: seq<Bundle>) {
    exists j :: Offends(bs, j)
  }

  predicate WellFormed(bs: seq<Bundle>) {
    forall i :: 0 <= i < |bs| ==> bs[i].sandbox.Some? && bs[i].generation > 0
  }

  /** Two of the bundles carry the same generation of the same sandbox. */
  ghost predicate Twins(m: multiset<Bundle>, a: Bundle, b: Bundle) {
    multiset{a, b} <= m && Same(a, b) && a.generation == b.generation
  }

  ghost predicate HasTwins(m: multiset<Bundle>) {
    exists a, b :: Twins(m, a, b)
  }

  /** And no bundle of that sandbox is newer. */
  ghost predicate NewestTwins(m: multiset<Bundle>, a: Bundle, b: Bundle) {
    Twins(m, a, b) && forall c :: c in m && Same(a, c) ==> c.generation <= a.generation
  }

  ghost predicate HasNewestTwins(m: multiset<Bundle>) {
    exists a, b :: NewestTwins(m, a, b)
  }

  function Without(bs: seq<Bundle>, i: nat): (r: seq<Bundle>)
    requires i < |bs|
    ensures multiset(bs) == multiset(r) + multiset{bs[i]}
  {
    assert bs == bs[..i] + [bs[i]] + bs[i + 1..];
    bs[..i] + bs[i + 1..]
  }

  function MoveFirst(bs: seq<Bundle>, i: nat): (r: seq<Bundle>)
    requires i < |bs|
    ensures |r| == |bs| && r[0] == bs[i] && multiset(r) == multiset(bs)
    ensures forall k :: 0 < k < |r| ==> r[k] == if k <= i then bs[k - 1] else bs[k]
  {
    [bs[i]] + Without(bs, i)
  }

  lemma TwoOf(bs: seq<Bundle>, i: nat, j: nat)
    requires i < j < |bs|
    ensures multiset{bs[i], bs[j]} <= multiset(bs)
  {
    var rest := Without(bs, j);
    assert rest[i] == bs[i];
    assert bs[i] in multiset(rest);
  }

  lemma PlacesOf(bs: seq<Bundle>, a: Bundle, b: Bundle) returns (i: nat, j: nat)
    requires multiset{a, b} <= multiset(bs)
    ensures i < |bs| && j < |bs| && i != j && bs[i] == a && bs[j] == b
  {
    assert a in multiset(bs);
    i :| 0 <= i < |bs| && bs[i] == a;
    var rest := Without(bs, i);
    assert b in multiset(rest);
    var k :| 0 <= k < |rest| && rest[k] == b;
    j := if k < i then k else k + 1;
  }

  lemma FailureHasTwins(bs: seq<Bundle>)
    requires WellFormed(bs) && Fails(bs)
    ensures HasTwins(multiset(bs))
  {
    var j :| Offends(bs, j);
    var i :| Repeats(bs, i, j);
    TwoOf(bs, i, j);
    assert Twins(multiset(bs), bs[i], bs[j]);
  }

  /** Twins that come first fail. */
  lemma TwinsCanFail(bs: seq<Bundle>, a: Bundle, b: Bundle) returns (cs: seq<Bundle>)
    requires Twins(multiset(bs), a, b)
    ensures multiset(cs) == multiset(bs) && Fails(cs)
  {
    var i, j := PlacesOf(bs, a, b);
    cs := BringFirst(bs, i, j);
    TwinsFirst(cs);
  }

  lemma BringFirst(bs: seq<Bundle>, i: nat, j: nat) returns (cs: seq<Bundle>)
    requires i < |bs| && j < |bs| && i != j
    ensures multiset(cs) == multiset(bs) && |cs| == |bs| && cs[0] == bs[i] && cs[1] == bs[j]
  {
    var moved := MoveFirst(bs, j);
    var k := if i < j then i + 1 else i;
    assert moved[k] == bs[i];
    cs := MoveFirst(moved, k);
    assert cs[1] == moved[0];
  }

  lemma TwinsFirst(cs: seq<Bundle>)
    requires |cs| >= 2 && Same(cs[0], cs[1]) && cs[0].generation == cs[1].generation
    ensures Fails(cs)
  {
    assert Repeats(cs, 0, 1) && Offends(cs, 1);
  }

  predicate Descending(bs: seq<Bundle>) {
    forall i, j :: 0 <= i < j < |bs| ==> bs[j].generation <= bs[i].generation
  }

  lemma InsertDescending(bs: seq<Bundle>, b: Bundle) returns (cs: seq<Bundle>)
    requires Descending(bs)
    ensures Descending(cs) && multiset(cs) == multiset(bs) + multiset{b}
  {
    var i := 0;
    while i < |bs| && bs[i].generation > b.generation
      invariant i <= |bs| && forall k :: 0 <= k < i ==> bs[k].generation > b.generation
    {
      i := i + 1;
    }
    cs := bs[..i] + [b] + bs[i..];
    InsertedOnce(bs, b, i, cs);
    InsertedInOrder(bs, b, i, cs);
  }

  lemma InsertedOnce(bs: seq<Bundle>, b: Bundle, i: nat, cs: seq<Bundle>)
    requires i <= |bs| && cs == bs[..i] + [b] + bs[i..]
    ensures multiset(cs) == multiset(bs) + multiset{b}
  {
    assert bs == bs[..i] + bs[i..];
  }

  lemma InsertedInOrder(bs: seq<Bundle>, b: Bundle, i: nat, cs: seq<Bundle>)
    requires Descending(bs) && i <= |bs| && cs == bs[..i] + [b] + bs[i..]
    requires forall k :: 0 <= k < i ==> bs[k].generation > b.generation
    requires i < |bs| ==> bs[i].generation <= b.generation
    ensures Descending(cs)
  {
    forall j, k | 0 <= j < k < |cs| ensures cs[k].generation <= cs[j].generation {
      assert cs[j] == if j < i then bs[j] else if j == i then b else bs[j - 1];
      assert cs[k] == if k < i then bs[k] else if k == i then b else bs[k - 1];
    }
  }

  lemma {:induction false} SortDescending(bs: seq<Bundle>) returns (cs: seq<Bundle>)
    ensures Descending(cs) && multiset(cs) == multiset(bs)
  {
    if bs == [] {
      cs := [];
    } else {
      var front := SortDescending(bs[1..]);
      cs := InsertDescending(front, bs[0]);
      assert bs == [bs[0]] + bs[1..];
    }
  }

  /** From newest to oldest only twins that are the newest of their sandbox fail. */
  lemma DescendingFailure(bs: seq<Bundle>)
    requires WellFormed(bs) && Descending(bs) && Fails(bs)
    ensures HasNewestTwins(multiset(bs))
  {
    var j :| Offends(bs, j);
    var i :| Repeats(bs, i, j);
    TwoOf(bs, i, j);
    forall c | c in multiset(bs) && Same(bs[i], c) ensures c.generation <= bs[i].generation {
      var k :| 0 <= k < |bs| && bs[k] == c;
    }
    assert NewestTwins(multiset(bs), bs[i], bs[j]);
  }

  ghost predicate Carries(b: Bundle, like: Bundle) {
    Same(like, b) && b.generation == like.generation
  }

  lemma FirstCarrier(bs: seq<Bundle>, like: Bundle, lo: nat, hi: nat) returns (p: nat)
    requires lo <= hi < |bs| && Carries(bs[hi], like)
    ensures lo <= p <= hi && Carries(bs[p], like) && forall k :: lo <= k < p ==> !Carries(bs[k], like)
  {
    p := lo;
    while !Carries(bs[p], like)
      invariant lo <= p <= hi && forall k :: lo <= k < p ==> !Carries(bs[k], like)
      decreases hi - p
    {
      p := p + 1;
    }
  }

  lemma FirstTwoRepeat(bs: seq<Bundle>, like: Bundle, p: nat, q: nat)
    requires p < q < |bs| && Carries(bs[p], like) && Carries(bs[q], like)
    requires forall k :: 0 <= k < q && k != p ==> !Carries(bs[k], like)
    requires forall k :: 0 <= k < |bs| && Same(like, bs[k]) ==> bs[k].generation <= like.generation
    ensures Offends(bs, q)
  {
    assert Same(bs[p], bs[q]) && Newest(bs, p, q);
    assert Repeats(bs, p, q);
  }

  /** Twins that are the newest of their sandbox fail in any order. */
  lemma NewestTwinsFail(bs: seq<Bundle>, a: Bundle, b: Bundle)
    requires NewestTwins(multiset(bs), a, b)
    ensures Fails(bs)
  {
    var i, j := PlacesOf(bs, a, b);
    var lo, hi := if i < j then i else j, if i < j then j else i;
    assert Carries(bs[lo], a) && Carries(bs[hi], a);
    var p := FirstCarrier(bs, a, 0, lo);
    var q := FirstCarrier(bs, a, p + 1, hi);
    forall k | 0 <= k < |bs| && Same(a, bs[k]) ensures bs[k].generation <= a.generation {
      assert bs[k] in multiset(bs);
    }
    FirstTwoRepeat(bs, a, p, q);
  }

  lemma SameForm(bs: seq<Bundle>, cs: seq<Bundle>)
    requires WellFormed(bs) && multiset(bs) == multiset(cs)
    ensures WellFormed(cs)
  {
    forall i | 0 <= i < |cs| ensures cs[i].sandbox.Some? && cs[i].generation > 0 {
      assert cs[i] in multiset(bs);
    }
  }

  ghost predicate Order(bs: seq<Bundle>, cs: seq<Bundle>, fails: bool) {
    multiset(cs) == multiset(bs) && (Fails(cs) <==> fails)
  }

  lemma SomeOrderFailsExactlyWhen(bs: seq<Bundle>)
    requires WellFormed(bs)
    ensures (exists cs :: Order(bs, cs, true)) <==> HasTwins(multiset(bs))
  {
    if HasTwins(multiset(bs)) {
      var a, b :| Twins(multiset(bs), a, b);
      var cs := TwinsCanFail(bs, a, b);
      assert Order(bs, cs, true);
    } else if exists cs :: Order(bs, cs, true) {
      var cs :| Order(bs, cs, true);
      SameForm(bs, cs);
      FailureHasTwins(cs);
    }
  }

  lemma SomeOrderSucceedsExactlyWhen(bs: seq<Bundle>)
    requires WellFormed(bs)
    ensures (exists cs :: Order(bs, cs, false)) <==> !HasNewestTwins(multiset(bs))
  {
    if HasNewestTwins(multiset(bs)) {
      var a, b :| NewestTwins(multiset(bs), a, b);
      forall cs | multiset(cs) == multiset(bs) ensures !Order(bs, cs, false) { NewestTwinsFail(cs, a, b); }
    } else {
      var cs := SortDescending(bs);
      SameForm(bs, cs);
      if Fails(cs) { DescendingFailure(cs); }
      assert Order(bs, cs, false);
    }
  }

  /** Exactly when the same bundles succeed in one order and fail in another: some sandbox has a generation twice, and
      none has its newest one twice. */
  lemma OrderMattersExactlyWhen(bs: seq<Bundle>)
    requires WellFormed(bs)
    ensures
      (exists cs, ds :: Order(bs, cs, true) && Order(bs, ds, false)) <==>
      HasTwins(multiset(bs)) && !HasNewestTwins(multiset(bs))
  {
    SomeOrderFailsExactlyWhen(bs);
    SomeOrderSucceedsExactlyWhen(bs);
  }

  /** Whether an older repeated generation is reported depends on the order of the bundles. */
  lemma OrderMatters(older: Bundle, newer: Bundle)
    requires Same(older, newer) && 0 < older.generation < newer.generation
    ensures Fails([older, older, newer]) && !Fails([newer, older, older])
  {
    var cs := [newer, older, older];
    TwinsFirst([older, older, newer]);
    assert Same(cs[1], cs[0]);
    assert !Newest(cs, 1, 2);
    assert forall i, j :: !Repeats(cs, i, j);
  }
}
