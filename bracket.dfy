/** `createSingleEliminationBracket`: shuffle the participants, pad the field
    to a power of two with byes drawn without replacement, and pair the rest
    into the first round. */
module BracketBuilder {
  import opened Common
  import opened Domain
  import opened Shuffle

  // ---------------------------------------------------------------- powers of two

  function Pow2(k: nat): nat {
    if k == 0 then 1 else 2 * Pow2(k - 1)
  }

  predicate IsPowerOfTwo(x: nat)
    decreases x
  {
    x == 1 || (x >= 2 && x % 2 == 0 && IsPowerOfTwo(x / 2))
  }

  /** `Math.log2`, which is exact on the powers of two the builder passes it. */
  function Log2(x: nat): nat
    requires x >= 1
    decreases x
  {
    if x == 1 then 0 else 1 + Log2(x / 2)
  }

  lemma {:induction false} Log2Exact(x: nat)
    requires IsPowerOfTwo(x)
    ensures x >= 1 && Pow2(Log2(x)) == x
    decreases x
  {
    if x != 1 {
      Log2Exact(x / 2);
    }
  }

  lemma {:induction false} PowerOfTwoBelow(p: nat, q: nat)
    requires IsPowerOfTwo(p) && IsPowerOfTwo(q) && p < q
    ensures p <= q / 2
    decreases q
  {
    if p != 1 {
      PowerOfTwoBelow(p / 2, q / 2);
    }
  }

  /** The doubling loop: `bracketSize` starts at 1 and doubles while it is
      below the participant count. */
  method BracketSize(n: nat) returns (size: nat)
    ensures IsPowerOfTwo(size) && n <= size
    ensures size == 1 || size / 2 < n
  {
    size := 1;
    while size < n
      invariant IsPowerOfTwo(size)
      invariant size == 1 || size / 2 < n
    {
      size := size * 2;
    }
  }

  /** What `BracketSize` ensures makes the size the smallest power of two
      that holds every participant. */
  lemma SmallestPowerOfTwo(n: nat, size: nat, p: nat)
    requires IsPowerOfTwo(size) && n <= size && (size == 1 || size / 2 < n)
    requires IsPowerOfTwo(p) && n <= p
    ensures size <= p
  {
    if p < size {
      PowerOfTwoBelow(p, size);
    }
  }

  // ---------------------------------------------------------------- byes

  /** `splice(i, 1)`: the sequence without its element at `i`. */
  function Splice<T>(s: seq<T>, i: nat): (r: seq<T>)
    requires i < |s|
    ensures |r| == |s| - 1
  {
    s[..i] + s[i + 1..]
  }

  lemma SplicePermutes<T>(s: seq<T>, i: nat)
    requires i < |s|
    ensures multiset(Splice(s, i)) + multiset{s[i]} == multiset(s)
  {
    assert s == s[..i] + [s[i]] + s[i + 1..];
  }

  /** The players drawn for byes and the players left, when `count` more
      draws are due and the next draw is number `step`. */
  function DrawByesFrom<T>(pool: seq<T>, count: nat, pick: nat -> nat, step: nat): (seq<T>, seq<T>)
    requires count <= |pool|
    decreases count
  {
    if count == 0 then ([], pool)
    else
      var idx := pick(step) % |pool|;
      var next := DrawByesFrom(Splice(pool, idx), count - 1, pick, step + 1);
      ([pool[idx]] + next.0, next.1)
  }

  /** Drawing without replacement splits the pool: `count` players sit out,
      the rest stay, and together they are exactly the pool. */
  lemma {:induction false} DrawByesPartition<T>(pool: seq<T>, count: nat, pick: nat -> nat, step: nat)
    requires count <= |pool|
    ensures |DrawByesFrom(pool, count, pick, step).0| == count
    ensures |DrawByesFrom(pool, count, pick, step).1| == |pool| - count
    ensures multiset(DrawByesFrom(pool, count, pick, step).0) + multiset(DrawByesFrom(pool, count, pick, step).1)
            == multiset(pool)
    decreases count
  {
    if count > 0 {
      var idx := pick(step) % |pool|;
      SplicePermutes(pool, idx);
      DrawByesPartition(Splice(pool, idx), count - 1, pick, step + 1);
    }
  }

  /** The bye loop: `count` times, draw an index of `playersCopy`, splice
      that player out and push it onto `playersWithByes`. */
  method SelectByes<T>(pool: seq<T>, count: nat, pick: nat -> nat) returns (byes: seq<T>, rest: seq<T>)
    requires count <= |pool|
    ensures (byes, rest) == DrawByesFrom(pool, count, pick, 0)
    ensures |byes| == count && |rest| == |pool| - count
    ensures multiset(byes) + multiset(rest) == multiset(pool)
  {
    ghost var final := DrawByesFrom(pool, count, pick, 0);
    byes, rest := [], pool;
    var i := 0;
    while i < count
      invariant 0 <= i <= count && |rest| == |pool| - i
      invariant byes + DrawByesFrom(rest, count - i, pick, i).0 == final.0
      invariant DrawByesFrom(rest, count - i, pick, i).1 == final.1
    {
      var randomIndex := pick(i) % |rest|;
      ghost var tail := DrawByesFrom(Splice(rest, randomIndex), count - i - 1, pick, i + 1);
      assert DrawByesFrom(rest, count - i, pick, i) == ([rest[randomIndex]] + tail.0, tail.1);
      assert byes + ([rest[randomIndex]] + tail.0) == (byes + [rest[randomIndex]]) + tail.0;
      byes := byes + [rest[randomIndex]];
      rest := Splice(rest, randomIndex);
      i := i + 1;
    }
    assert DrawByesFrom(rest, 0, pick, i) == ([], rest);
    assert byes + [] == byes;
    DrawByesPartition(pool, count, pick, 0);
  }

  // ---------------------------------------------------------------- pairing

  /** The id of the match in slot `slot` of a round built at `stamp`; later
      rounds carry their round number. */
  function PairMatchId(stamp: nat, slot: nat, round: Option<nat>): MatchId {
    if round.Some? then LaterRoundMatch(stamp, slot, round.value) else FirstRoundMatch(stamp, slot)
  }

  function NewMatch(id: MatchId, p1: Player, p2: Player): Match {
    Match(id, p1, p2, Pending, None, None, [], Unset, None, None, None)
  }

  /** A match as the builder creates it: pending, no scores, no submissions. */
  predicate IsFresh(m: Match) {
    && m.status == Pending && m.score1.None? && m.score2.None? && m.pendingResults == []
    && m.completedBy == Unset && m.completedAt.None? && m.gameState.None? && m.gameResult.None?
  }

  /** Players `2k` and `2k+1` meet in match `k`; an odd last player is left
      unpaired. */
  function Pairing(ps: seq<Player>, stamp: nat, round: Option<nat>): Round {
    seq(|ps| / 2, k requires 0 <= k < |ps| / 2 => NewMatch(PairMatchId(stamp, k, round), ps[2 * k], ps[2 * k + 1]))
  }

  /** A paired round holds ⌊|ps|/2⌋ fresh matches. */
  lemma PairingShape(ps: seq<Player>, stamp: nat, round: Option<nat>)
    ensures |Pairing(ps, stamp, round)| == |ps| / 2
    ensures forall k :: 0 <= k < |ps| / 2 ==> IsFresh(Pairing(ps, stamp, round)[k])
  {
  }

  /** The players of a paired round, in order, are the players given: all of
      them when there is an even number, all but the last otherwise. */
  lemma PairingPlayers(ps: seq<Player>, stamp: nat, round: Option<nat>)
    ensures RoundPlayers(Pairing(ps, stamp, round)) == ps[..2 * (|ps| / 2)]
    ensures |ps| % 2 == 0 ==> RoundPlayers(Pairing(ps, stamp, round)) == ps
  {
    var r := Pairing(ps, stamp, round);
    var flat := RoundPlayers(r);
    var m := |ps| / 2;
    assert |flat| == 2 * m;
    forall i | 0 <= i < 2 * m
      ensures flat[i] == ps[i]
    {
      var k := i / 2;
      assert k < m && i == 2 * k + i % 2;
      assert flat[2 * k] == r[k].player1 == ps[2 * k];
      assert flat[2 * k + 1] == r[k].player2 == ps[2 * k + 1];
    }
    assert flat == ps[..2 * m];
  }

  /** The pairing loop of the builder and of round advancement: for
      i = 0, 2, 4, … push (ps[i], ps[i+1]) when ps[i+1] exists. */
  method PairUp(ps: seq<Player>, stamp: nat, round: Option<nat>) returns (r: Round)
    ensures r == Pairing(ps, stamp, round)
  {
    r := [];
    var i := 0;
    while i < |ps|
      invariant 0 <= i <= |ps| + 1 && i % 2 == 0
      invariant |r| == (if i <= |ps| then i else |ps|) / 2
      invariant forall k :: 0 <= k < |r| ==> r[k] == NewMatch(PairMatchId(stamp, k, round), ps[2 * k], ps[2 * k + 1])
    {
      if i + 1 < |ps| {
        r := r + [NewMatch(PairMatchId(stamp, i / 2, round), ps[i], ps[i + 1])];
      }
      i := i + 2;
    }
  }

  // ---------------------------------------------------------------- multisets and duplicates

  lemma {:induction false} NoDuplicatesCount<T>(s: seq<T>, x: T)
    requires NoDuplicates(s)
    ensures multiset(s)[x] <= 1
  {
    if s != [] {
      assert s == [s[0]] + s[1..];
      NoDuplicatesCount(s[1..], x);
      if x == s[0] {
        assert x !in s[1..];
      }
    }
  }

  lemma TwoCopies<T>(s: seq<T>, i: nat, j: nat)
    requires i < j < |s| && s[i] == s[j]
    ensures multiset(s)[s[i]] >= 2
  {
    assert s == s[..j] + s[j..];
    assert s[i] in s[..j];
    assert s[j] in s[j..];
  }

  /** A permutation of a sequence without duplicates has none either. */
  lemma NoDuplicatesPermutation<T>(s: seq<T>, t: seq<T>)
    requires NoDuplicates(s) && multiset(t) == multiset(s)
    ensures NoDuplicates(t)
  {
    forall i, j | 0 <= i < j < |t|
      ensures t[i] != t[j]
    {
      if t[i] == t[j] {
        TwoCopies(t, i, j);
        NoDuplicatesCount(s, t[i]);
      }
    }
  }

  // ---------------------------------------------------------------- the bracket

  /** The shape the builder promises for participants `players`. */
  ghost predicate IsFreshBracket(b: Bracket, players: seq<Player>) {
    var n := |players|;
    && IsPowerOfTwo(b.bracketSize) && n <= b.bracketSize && (b.bracketSize == 1 || b.bracketSize / 2 < n)
    && Pow2(b.totalRounds) == b.bracketSize
    && b.currentRound == 1 && |b.rounds| == 1 && !b.isComplete && b.winner.None?
    && |b.playersWithByes| == b.bracketSize - n
    && |b.rounds[0]| == (n - |b.playersWithByes|) / 2
    && (forall k :: 0 <= k < |b.rounds[0]| ==> IsFresh(b.rounds[0][k]))
    && (n >= 2 ==> (n - |b.playersWithByes|) % 2 == 0
                   && multiset(b.playersWithByes) + multiset(RoundPlayers(b.rounds[0])) == multiset(players))
  }

  /** With at least one player the byes never exhaust the field. */
  lemma ByesFit(n: nat, size: nat)
    requires n >= 1 && IsPowerOfTwo(size) && n <= size && (size == 1 || size / 2 < n)
    ensures size - n <= n
    ensures n >= 2 ==> size >= 2 && size % 2 == 0 && (n - (size - n)) % 2 == 0
  {
  }

  /** The bracket assembled from a minimal power-of-two size, the byes drawn
      from a permutation of the players and the pairing of the others has the
      promised shape. */
  lemma AssembledBracketIsFresh(players: seq<Player>, shuffled: seq<Player>, size: nat,
                                byes: seq<Player>, rest: seq<Player>, stamp: nat)
    requires |players| >= 1 && multiset(shuffled) == multiset(players)
    requires IsPowerOfTwo(size) && |players| <= size && (size == 1 || size / 2 < |players|)
    requires |byes| == size - |players| && |rest| == |players| - |byes|
    requires multiset(byes) + multiset(rest) == multiset(shuffled)
    ensures IsFreshBracket(Bracket(size, Log2(size), 1, [Pairing(rest, stamp, None)], byes, false, None), players)
  {
    assert |shuffled| == |players| by {
      assert |multiset(shuffled)| == |multiset(players)|;
    }
    ByesFit(|players|, size);
    PairingShape(rest, stamp, None);
    PairingPlayers(rest, stamp, None);
    Log2Exact(size);
  }

  method CreateBracket(players: seq<Player>, shufflePick: nat -> nat, byePick: nat -> nat, stamp: nat)
    returns (b: Bracket)
    requires |players| >= 1
    ensures IsFreshBracket(b, players)
    ensures b.bracketSize - |players| <= |FisherYates(players, shufflePick)|
    ensures b.playersWithByes == DrawByesFrom(FisherYates(players, shufflePick), b.bracketSize - |players|, byePick, 0).0
    ensures b.rounds[0] == Pairing(DrawByesFrom(FisherYates(players, shufflePick), b.bracketSize - |players|, byePick, 0).1,
                                   stamp, None)
  {
    var shuffledPlayers := ShuffleArray(players, shufflePick);
    var bracketSize := BracketSize(|shuffledPlayers|);
    ByesFit(|players|, bracketSize);
    var byes := bracketSize - |shuffledPlayers|;
    var playersWithByes, playersCopy := SelectByes(shuffledPlayers, byes, byePick);
    var firstRound := PairUp(playersCopy, stamp, None);
    AssembledBracketIsFresh(players, shuffledPlayers, bracketSize, playersWithByes, playersCopy, stamp);
    b := Bracket(bracketSize, Log2(bracketSize), 1, [firstRound], playersWithByes, false, None);
  }

  /** After the first round every match winner and every bye advance: for a
      fresh bracket that is half the bracket size. */
  lemma FirstRoundAdvancing(b: Bracket, players: seq<Player>)
    requires IsFreshBracket(b, players) && |players| >= 2
    ensures |b.rounds[0]| + |b.playersWithByes| == b.bracketSize / 2
  {
    ByesFit(|players|, b.bracketSize);
  }

  /** Over distinct participants, byes and first-round players are all
      distinct, so a bye never plays in round 0 and nobody plays twice. */
  lemma FreshBracketDistinct(b: Bracket, players: seq<Player>)
    requires IsFreshBracket(b, players) && |players| >= 2 && NoDuplicates(players)
    ensures NoDuplicates(b.playersWithByes + RoundPlayers(b.rounds[0]))
    ensures forall p :: p in b.playersWithByes ==> p !in RoundPlayers(b.rounds[0])
  {
    var all := b.playersWithByes + RoundPlayers(b.rounds[0]);
    NoDuplicatesPermutation(players, all);
    forall p | p in b.playersWithByes
      ensures p !in RoundPlayers(b.rounds[0])
    {
      NoDuplicatesCount(players, p);
      assert multiset(b.playersWithByes)[p] >= 1;
      assert multiset(RoundPlayers(b.rounds[0]))[p] == 0;
    }
  }

  /** Matches still to play once `k` players (a power of two) are left. */
  function MatchesToFinish(k: nat): nat
    decreases k
  {
    if k <= 1 then 0 else k / 2 + MatchesToFinish(k / 2)
  }

  lemma {:induction false} MatchesToFinishCount(k: nat)
    requires IsPowerOfTwo(k)
    ensures MatchesToFinish(k) == k - 1
    decreases k
  {
    if k > 1 {
      MatchesToFinishCount(k / 2);
    }
  }

  /** A fresh bracket, played to the end, has one match per eliminated player:
      n − 1 in all (byes make no match), never more than size − 1. */
  lemma BracketMatchCount(b: Bracket, players: seq<Player>)
    requires IsFreshBracket(b, players) && |players| >= 2
    ensures |b.rounds[0]| + MatchesToFinish(b.bracketSize / 2) == |players| - 1
    ensures |players| - 1 <= b.bracketSize - 1
  {
    FirstRoundAdvancing(b, players);
    MatchesToFinishCount(b.bracketSize / 2);
  }
}
