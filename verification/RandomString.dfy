/** The random string generator: six bits at a time out of a cached 63-bit draw. */
module RandomStrings {

  const LETTERS := "abcdefghijklmnopqrstuvwxyz" + "ABCDEFGHIJKLMNOPQRSTUVWXYZ" + "0123456789"
  const COUNT: nat := 62
  const GROUPS: nat := 10

  /** A group that names a letter. */
  type Index = i: nat | i < COUNT

  function Letter(i: Index): char {
    LETTERS[i]
  }

  /** The first `m` six-bit groups of a draw, low bits first. A draw is not negative, so masking is
      the remainder and shifting the quotient by 64. */
  function GroupsOf(draw: nat, m: nat): seq<nat> {
    if m == 0 then [] else [draw % 64] + GroupsOf(draw / 64, m - 1)
  }

  function Flatten(groups: seq<seq<nat>>): seq<nat> {
    if groups == [] then [] else Flatten(groups[..|groups| - 1]) + groups[|groups| - 1]
  }

  /** Ten groups of every draw. */
  function AllGroups(draws: seq<nat>): seq<nat> {
    Flatten(seq(|draws|, i requires 0 <= i < |draws| => GroupsOf(draws[i], GROUPS)))
  }

  /** The groups that name a letter. */
  function Accepted(groups: seq<nat>): seq<Index> {
    if groups == [] then []
    else
      var n := |groups| - 1;
      Accepted(groups[..n]) + if groups[n] < COUNT then [groups[n]] else []
  }

  /** The letters of some groups, the first group in the last place. */
  function Text(groups: seq<Index>): seq<char> {
    if groups == [] then [] else [Letter(groups[|groups| - 1])] + Text(groups[..|groups| - 1])
  }

  lemma OneMoreGroup(done: seq<nat>, idx: nat)
    ensures Accepted(done + [idx]) == Accepted(done) + if idx < COUNT then [idx] else []
  {
    assert (done + [idx])[..|done|] == done;
  }

  lemma OneMoreLetter(groups: seq<Index>, idx: Index)
    ensures Text(groups + [idx]) == [Letter(idx)] + Text(groups)
  {
    assert (groups + [idx])[..|groups|] == groups;
  }

  lemma {:induction false} AcceptedPrefix(a: seq<nat>, b: seq<nat>)
    ensures Accepted(a) <= Accepted(a + b)
  {
    if b == [] {
      assert a + b == a;
    } else {
      var n := |b| - 1;
      AcceptedPrefix(a, b[..n]);
      assert (a + b)[..|a + b| - 1] == a + b[..n];
    }
  }

  lemma {:induction false} FlattenPrefix(a: seq<seq<nat>>, b: seq<seq<nat>>) returns (rest: seq<nat>)
    ensures Flatten(a + b) == Flatten(a) + rest
  {
    if b == [] {
      assert a + b == a;
      rest := [];
    } else {
      var n := |b| - 1;
      rest := FlattenPrefix(a, b[..n]);
      assert (a + b)[..|a + b| - 1] == a + b[..n];
      assert Flatten(a) + rest + b[n] == Flatten(a) + (rest + b[n]);
      rest := rest + b[n];
    }
  }

  lemma AllGroupsPrefix(draws: seq<nat>, used: nat) returns (rest: seq<nat>)
    requires used <= |draws|
    ensures AllGroups(draws) == AllGroups(draws[..used]) + rest
  {
    var all := seq(|draws|, i requires 0 <= i < |draws| => GroupsOf(draws[i], GROUPS));
    var some := seq(used, i requires 0 <= i < used => GroupsOf(draws[..used][i], GROUPS));
    assert all == some + all[used..];
    rest := FlattenPrefix(some, all[used..]);
  }

  lemma OneMoreDraw(draws: seq<nat>, used: nat)
    requires used < |draws|
    ensures AllGroups(draws[..used + 1]) == AllGroups(draws[..used]) + GroupsOf(draws[used], GROUPS)
  {
    var some := seq(used, i requires 0 <= i < used => GroupsOf(draws[..used][i], GROUPS));
    var more := seq(used + 1, i requires 0 <= i < used + 1 => GroupsOf(draws[..used + 1][i], GROUPS));
    assert more[..used] == some && more[used] == GroupsOf(draws[used], GROUPS);
  }

  /** `done` and the groups left in the cache are the groups of the first `used` draws. */
  ghost predicate Cached(draws: seq<nat>, used: nat, done: seq<nat>, cache: nat, remain: nat) {
    used <= |draws| && done + GroupsOf(cache, remain) == AllGroups(draws[..used])
  }

  lemma TakeGroup(draws: seq<nat>, used: nat, done: seq<nat>, cache: nat, remain: nat)
    requires Cached(draws, used, done, cache, remain) && remain > 0
    ensures Cached(draws, used, done + [cache % 64], cache / 64, remain - 1)
  {
    var rest := GroupsOf(cache / 64, remain - 1);
    assert done + ([cache % 64] + rest) == done + [cache % 64] + rest;
  }

  lemma FirstDraw(draws: seq<nat>)
    requires draws != []
    ensures Cached(draws, 1, [], draws[0], GROUPS)
  {
    OneMoreDraw(draws, 0);
  }

  lemma Refill(draws: seq<nat>, used: nat, done: seq<nat>, cache: nat, n: nat)
    requires Cached(draws, used, done, cache, 0) && |Accepted(done)| < n <= |Accepted(AllGroups(draws))|
    ensures used < |draws| && Cached(draws, used + 1, done, draws[used], GROUPS)
    ensures |Accepted(AllGroups(draws[..used]))| < n
  {
    assert done == AllGroups(draws[..used]);
    assert draws[..|draws|] == draws;
    assert used < |draws|;
    OneMoreDraw(draws, used);
  }

  lemma Complete(draws: seq<nat>, used: nat, done: seq<nat>, cache: nat, remain: nat)
    requires Cached(draws, used, done, cache, remain)
    ensures Accepted(done) <= Accepted(AllGroups(draws[..used])) && Accepted(done) <= Accepted(AllGroups(draws))
  {
    AcceptedPrefix(done, GroupsOf(cache, remain));
    var rest := AllGroupsPrefix(draws, used);
    AcceptedPrefix(AllGroups(draws[..used]), rest);
  }

  /** `text` spells the letters among `done`. */
  ghost predicate Spelled(done: seq<nat>, text: seq<char>) {
    text == Text(Accepted(done)) && |text| == |Accepted(done)|
  }

  /** What one group adds to the text. */
  function Spelling(idx: nat): seq<char> {
    if idx < COUNT then [Letter(idx)] else []
  }

  lemma SpelledMore(done: seq<nat>, idx: nat, text: seq<char>)
    requires Spelled(done, text)
    ensures Spelled(done + [idx], Spelling(idx) + text)
  {
    OneMoreGroup(done, idx);
    if idx < COUNT {
      OneMoreLetter(Accepted(done), idx);
    } else {
      assert Accepted(done) + [] == Accepted(done) && [] + text == text;
    }
  }

  /** Every draw after the first was needed: those before the last one do not suffice. */
  ghost predicate Needed(draws: seq<nat>, used: nat, n: nat) {
    1 <= used <= |draws| && (used > 1 ==> |Accepted(AllGroups(draws[..used - 1]))| < n)
  }

  lemma Finished(draws: seq<nat>, used: nat, done: seq<nat>, cache: nat, remain: nat, text: seq<char>)
    requires Cached(draws, used, done, cache, remain) && Spelled(done, text)
    ensures |text| <= |Accepted(AllGroups(draws[..used]))| && |text| <= |Accepted(AllGroups(draws))|
    ensures text == Text(Accepted(AllGroups(draws))[..|text|])
  {
    Complete(draws, used, done, cache, remain);
    assert Accepted(AllGroups(draws))[..|text|] == Accepted(done);
  }

  /** What holds at every turn of the loop. */
  ghost predicate Going(draws: seq<nat>, used: nat, n: nat, done: seq<nat>, cache: nat, remain: nat, text: seq<char>) {
    Cached(draws, used, done, cache, remain) && Spelled(done, text) && Needed(draws, used, n)
  }

  lemma OneTurn(draws: seq<nat>, used: nat, n: nat, done: seq<nat>, cache: nat, remain: nat, text: seq<char>)
    requires Going(draws, used, n, done, cache, remain, text) && remain > 0
    ensures Going(draws, used, n, done + [cache % 64], cache / 64, remain - 1, Spelling(cache % 64) + text)
  {
    TakeGroup(draws, used, done, cache, remain);
    SpelledMore(done, cache % 64, text);
  }

  /** Writes the letter of the lowest group of the cache, if it names one, before those already there. */
  method Put(b: array<char>, i: nat, cache: nat) returns (next: int)
    requires i < b.Length
    modifies b
    ensures next == i - |Spelling(cache % 64)|
    ensures b[next + 1..] == Spelling(cache % 64) + old(b[i + 1..])
  {
    next := i;
    var idx := cache % 64;
    if idx < COUNT {
      b[i] := Letter(idx);
      next := i - 1;
    }
  }

  // ----- letters, groups and positions in plain terms

  function Pow64(i: nat): (p: nat)
    ensures p > 0
  {
    if i == 0 then 1 else 64 * Pow64(i - 1)
  }

  /** Group `p` of a stream of draws: ten to a draw, six bits each, low bits first. */
  function Group(draws: seq<nat>, p: nat): nat
    requires p < 10 * |draws|
  {
    (draws[p / 10] / Pow64(p % 10)) % 64
  }

  /** Lower-case letters, upper-case letters, digits. */
  function Character(g: nat): char
    requires g < 62
  {
    (if g < 26 then 'a' as int + g else if g < 52 then 'A' as int + (g - 26) else '0' as int + (g - 52)) as char
  }

  lemma LetterIs(g: nat)
    requires g < 62
    ensures Letter(g) == Character(g)
  {
    var lower, upper, digits := "abcdefghijklmnopqrstuvwxyz", "ABCDEFGHIJKLMNOPQRSTUVWXYZ", "0123456789";
    assert LETTERS == lower + upper + digits;
    assert Letter(g) == if g < 26 then lower[g] else if g < 52 then upper[g - 26] else digits[g - 52];
  }

  lemma DivUnique(a: nat, d: nat, q: nat)
    requires d > 0 && q * d <= a < q * d + d
    ensures a / d == q
  {
    var x := a / d - q;
    assert x * d == (a / d) * d - q * d;
    Small(x, d);
  }

  lemma Small(x: int, d: int)
    requires -d < x * d < d
    ensures x == 0
  {
    assert x > 0 ==> (x - 1) * d >= 0;
    assert x < 0 ==> (-x - 1) * d >= 0;
  }

  lemma DivTwice(a: nat, d: nat)
    requires d > 0
    ensures a / 64 / d == a / (64 * d)
  {
    var x := a / 64;
    var q := x / d;
    assert q * d <= x < q * d + d;
    assert q * (64 * d) == 64 * (q * d);
    DivUnique(a, 64 * d, q);
  }

  lemma {:induction false} GroupsAre(draw: nat, m: nat)
    ensures |GroupsOf(draw, m)| == m
    ensures forall i :: 0 <= i < m ==> GroupsOf(draw, m)[i] == (draw / Pow64(i)) % 64
  {
    if m > 0 {
      GroupsAre(draw / 64, m - 1);
      forall i | 0 < i < m ensures GroupsOf(draw, m)[i] == (draw / Pow64(i)) % 64 {
        DivTwice(draw, Pow64(i - 1));
      }
    }
  }

  /** The stream of groups: ten for every draw. */
  lemma {:induction false} StreamAt(draws: seq<nat>)
    ensures |AllGroups(draws)| == 10 * |draws|
    ensures forall p :: 0 <= p < 10 * |draws| ==> AllGroups(draws)[p] == Group(draws, p)
  {
    if draws != [] {
      var n := |draws| - 1;
      StreamAt(draws[..n]);
      OneMoreDraw(draws, n);
      assert draws[..n + 1] == draws;
      GroupsAre(draws[n], 10);
      StreamStep(draws, AllGroups(draws[..n]), GroupsOf(draws[n], 10));
    }
  }

  lemma StreamStep(draws: seq<nat>, front: seq<nat>, last: seq<nat>)
    requires draws != [] && |front| == 10 * (|draws| - 1) && |last| == 10
    requires forall p :: 0 <= p < |front| ==> front[p] == Group(draws[..|draws| - 1], p)
    requires forall i :: 0 <= i < 10 ==> last[i] == (draws[|draws| - 1] / Pow64(i)) % 64
    ensures forall p :: 0 <= p < 10 * |draws| ==> (front + last)[p] == Group(draws, p)
  {
    var n := |draws| - 1;
    forall p | 0 <= p < 10 * |draws| ensures (front + last)[p] == Group(draws, p) {
      if p < 10 * n {
        assert front[p] == Group(draws[..n], p);
      } else {
        assert p / 10 == n && p % 10 == p - 10 * n;
      }
    }
  }

  /** The places of the accepted groups, in order. */
  ghost predicate Places(groups: seq<nat>, at: seq<nat>) {
    && |at| == |Accepted(groups)|
    && (forall x :: 0 <= x < |at| ==> at[x] < |groups| && groups[at[x]] == Accepted(groups)[x])
    && (forall x, y :: 0 <= x < y < |at| ==> at[x] < at[y])
    && (forall p :: 0 <= p < |groups| && groups[p] < 62 ==> p in at)
  }

  /** How many of them there are among the first groups. */
  ghost predicate Counts(groups: seq<nat>, at: seq<nat>, m: nat)
    requires m <= |groups|
  {
    forall x :: 0 <= x < |at| ==> (at[x] < m <==> x < |Accepted(groups[..m])|)
  }

  lemma {:induction false} AcceptedAt(groups: seq<nat>) returns (at: seq<nat>)
    ensures Places(groups, at) && forall m :: 0 <= m <= |groups| ==> Counts(groups, at, m)
  {
    at := [];
    if groups != [] {
      var n := |groups| - 1;
      var front := AcceptedAt(groups[..n]);
      at := front + if groups[n] < 62 then [n] else [];
      forall p | 0 <= p < |groups| && groups[p] < 62 ensures p in at {
        assert p < n ==> groups[..n][p] == groups[p] && p in front;
      }
      forall m | 0 <= m <= |groups| ensures Counts(groups, at, m) {
        CountsOn(groups, front, at, m);
      }
    }
  }

  lemma CountsOn(groups: seq<nat>, front: seq<nat>, at: seq<nat>, m: nat)
    requires groups != [] && m <= |groups| && Places(groups[..|groups| - 1], front)
    requires m < |groups| ==> Counts(groups[..|groups| - 1], front, m)
    requires at == front + if groups[|groups| - 1] < 62 then [|groups| - 1] else []
    ensures Counts(groups, at, m)
  {
    var n := |groups| - 1;
    if m == |groups| {
      assert groups[..m] == groups;
    } else {
      assert groups[..n][..m] == groups[..m];
      assert groups[..n] == groups[..m] + groups[m..n];
      AcceptedPrefix(groups[..m], groups[m..n]);
    }
  }

  lemma {:induction false} TextAt(groups: seq<Index>, j: nat)
    requires j < |groups|
    ensures |Text(groups)| == |groups| && Text(groups)[|groups| - 1 - j] == Letter(groups[j])
  {
    var n := |groups| - 1;
    var front := groups[..n];
    if j < n {
      TextAt(front, j);
    } else if n > 0 {
      TextAt(front, 0);
    }
    assert Text(groups) == [Letter(groups[n])] + Text(front);
  }

  /** What the accepted groups, the text and the number of draws mean. */
  lemma PlainTerms(draws: seq<nat>, n: nat, used: nat, text: seq<char>) returns (at: seq<nat>)
    requires 1 <= used <= |draws| && n <= |Accepted(AllGroups(draws))| && text == Text(Accepted(AllGroups(draws))[..n])
    requires n <= |Accepted(AllGroups(draws[..used]))| && (used > 1 ==> |Accepted(AllGroups(draws[..used - 1]))| < n)
    ensures FirstPlaces(draws, at) && |at| == n && |text| == n
    ensures forall j :: 0 <= j < n ==> text[n - 1 - j] == Character(Group(draws, at[j]))
    ensures used == if n == 0 then 1 else at[n - 1] / 10 + 1
  {
    var groups := AllGroups(draws);
    StreamAt(draws);
    var all := AcceptedAt(groups);
    at := all[..n];
    FirstOnes(draws, groups, all, n);
    TextOf(draws, groups, all, n);
    UsedTerms(draws, all, n, used);
  }

  lemma UsedTerms(draws: seq<nat>, all: seq<nat>, n: nat, used: nat)
    requires 1 <= used <= |draws| && |AllGroups(draws)| == 10 * |draws| && n <= |all|
    requires forall m :: 0 <= m <= |AllGroups(draws)| ==> Counts(AllGroups(draws), all, m)
    requires n <= |Accepted(AllGroups(draws[..used]))| && (used > 1 ==> |Accepted(AllGroups(draws[..used - 1]))| < n)
    ensures used == if n == 0 then 1 else all[n - 1] / 10 + 1
  {
    CountOf(draws, all, used);
    CountOf(draws, all, used - 1);
    UsedIs(all, n, used, |Accepted(AllGroups(draws[..used - 1]))|, |Accepted(AllGroups(draws[..used]))|);
  }

  lemma UsedIs(all: seq<nat>, n: nat, used: nat, before: nat, now: nat)
    requires n <= |all| && n <= now && used > 0 && (used > 1 ==> before < n)
    requires forall x :: 0 <= x < |all| ==> (all[x] < 10 * used <==> x < now) && (all[x] < 10 * (used - 1) <==> x < before)
    ensures n > 0 ==> all[n - 1] / 10 + 1 == used
    ensures n == 0 ==> used == 1
  {
  }

  /** Places of groups below 62, in order. */
  ghost predicate InOrder(draws: seq<nat>, at: seq<nat>) {
    && (forall x :: 0 <= x < |at| ==> at[x] < 10 * |draws| && Group(draws, at[x]) < 62)
    && (forall x, y :: 0 <= x < y < |at| ==> at[x] < at[y])
  }

  /** The draws hold at least `n` groups below 62. */
  ghost predicate Suffice(draws: seq<nat>, n: nat) {
    exists at: seq<nat> :: |at| == n && InOrder(draws, at)
  }

  lemma {:induction false} NotBefore(all: seq<nat>, at: seq<nat>, x: nat) returns (y: nat)
    requires x < |at| && forall i :: 0 <= i < |at| ==> at[i] in all
    requires forall i, j :: 0 <= i < j < |at| ==> at[i] < at[j]
    requires forall i, j :: 0 <= i < j < |all| ==> all[i] < all[j]
    ensures x <= y < |all| && all[y] == at[x]
  {
    var before: int := -1;
    if x > 0 {
      before := NotBefore(all, at, x - 1);
    }
    y :| 0 <= y < |all| && all[y] == at[x];
  }

  lemma EnoughAccepted(draws: seq<nat>, n: nat)
    requires Suffice(draws, n)
    ensures |Accepted(AllGroups(draws))| >= n
  {
    var at: seq<nat> :| |at| == n && InOrder(draws, at);
    StreamAt(draws);
    var all := AcceptedAt(AllGroups(draws));
    forall i | 0 <= i < n ensures at[i] in all {
      assert AllGroups(draws)[at[i]] < 62;
    }
    if n > 0 {
      var y := NotBefore(all, at, n - 1);
    }
  }

  /** The places of the first groups below 62: none is left out before the last. */
  ghost predicate FirstPlaces(draws: seq<nat>, at: seq<nat>) {
    && InOrder(draws, at)
    && (forall p :: 0 <= p < 10 * |draws| && at != [] && p < at[|at| - 1] && Group(draws, p) < 62 ==> p in at)
  }

  lemma FirstOnes(draws: seq<nat>, groups: seq<nat>, all: seq<nat>, n: nat)
    requires |groups| == 10 * |draws| && (forall p :: 0 <= p < |groups| ==> groups[p] == Group(draws, p))
    requires Places(groups, all) && n <= |all|
    ensures FirstPlaces(draws, all[..n])
  {
    var at := all[..n];
    forall p | 0 <= p < 10 * |draws| && at != [] && p < at[|at| - 1] && Group(draws, p) < 62 ensures p in at {
      assert groups[p] < 62;
      var x :| 0 <= x < |all| && all[x] == p;
      assert x < n && at[x] == p;
    }
  }

  lemma TextOf(draws: seq<nat>, groups: seq<nat>, all: seq<nat>, n: nat)
    requires |groups| == 10 * |draws| && (forall p :: 0 <= p < |groups| ==> groups[p] == Group(draws, p))
    requires Places(groups, all) && n <= |all|
    ensures |Text(Accepted(groups)[..n])| == n
    ensures forall j :: 0 <= j < n ==> all[j] < |groups| && groups[all[j]] < 62 && Text(Accepted(groups)[..n])[n - 1 - j] == Character(groups[all[j]])
  {
    var some := Accepted(groups)[..n];
    if n > 0 {
      TextAt(some, 0);
    }
    forall j | 0 <= j < n ensures all[j] < |groups| && groups[all[j]] < 62 && Text(some)[n - 1 - j] == Character(groups[all[j]]) {
      TextAt(some, j);
      LetterIs(some[j]);
    }
  }

  lemma CountOf(draws: seq<nat>, all: seq<nat>, used: nat)
    requires used <= |draws| && |AllGroups(draws)| == 10 * |draws|
    requires forall m :: 0 <= m <= |AllGroups(draws)| ==> Counts(AllGroups(draws), all, m)
    ensures forall x :: 0 <= x < |all| ==> (all[x] < 10 * used <==> x < |Accepted(AllGroups(draws[..used]))|)
  {
    StreamAt(draws[..used]);
    var rest := AllGroupsPrefix(draws, used);
    assert AllGroups(draws)[..10 * used] == AllGroups(draws[..used]);
    assert Counts(AllGroups(draws), all, 10 * used);
  }

  /** The loop: fills the array from its end with the letters of the first accepted groups, and takes
      another draw only while those of the earlier ones do not suffice. */
  method Fill(b: array<char>, draws: seq<nat>) returns (used: nat)
    requires draws != [] && |Accepted(AllGroups(draws))| >= b.Length
    modifies b
    ensures b[..] == Text(Accepted(AllGroups(draws))[..b.Length])
    ensures 1 <= used <= |draws| && b.Length <= |Accepted(AllGroups(draws[..used]))|
    ensures used > 1 ==> |Accepted(AllGroups(draws[..used - 1]))| < b.Length
  {
    ghost var n := b.Length;
    var cache: nat, remain: nat := draws[0], GROUPS;
    used := 1;
    var i := b.Length - 1;
    ghost var done: seq<nat>, text: seq<char> := [], [];
    FirstDraw(draws);
    while i >= 0
      invariant -1 <= i < n && |text| == n - 1 - i && b[i + 1..] == text
      invariant Going(draws, used, n, done, cache, remain, text)
      decreases |draws| - used, remain
    {
      if remain == 0 {
        Refill(draws, used, done, cache, n);
        cache, remain := draws[used], GROUPS;
        used := used + 1;
      }
      OneTurn(draws, used, n, done, cache, remain, text);
      i := Put(b, i, cache);
      done, text := done + [cache % 64], Spelling(cache % 64) + text;
      cache, remain := cache / 64, remain - 1;
    }
    Finished(draws, used, done, cache, remain, text);
    assert b[..] == text;
  }

  /** The generator. `draws` is what the source will deliver, `used` how much of it was taken, and `at`
      are the places of the first `n` groups below 62, of ten to a draw: the string spells them from
      its end, and no draw is taken beyond the one that holds the last of them. */
  method StringFunc(n: nat, draws: seq<nat>) returns (b: array<char>, used: nat, ghost at: seq<nat>)
    requires draws != [] && Suffice(draws, n)
    ensures fresh(b) && b.Length == n && |at| == n && FirstPlaces(draws, at)
    ensures forall j :: 0 <= j < n ==> b[n - 1 - j] == Character(Group(draws, at[j]))
    ensures used == if n == 0 then 1 else at[n - 1] / 10 + 1
  {
    EnoughAccepted(draws, n);
    b := new char[n](_ => 'a');
    used := Fill(b, draws);
    ghost var text := b[..];
    at := PlainTerms(draws, n, used, text);
    forall j | 0 <= j < n ensures b[n - 1 - j] == Character(Group(draws, at[j])) {
      assert text[n - 1 - j] == Character(Group(draws, at[j]));
    }
  }
}
