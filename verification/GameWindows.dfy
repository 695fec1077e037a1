/** The scans over the dispute game factory's list of games (op-succinct/fault-proof/src/lib.rs). A game
    is named by its index. */
module GameWindows {
  import opened Requests

  datatype ProposalStatus =
    | Unchallenged
    | Challenged
    | UnchallengedAndValidProofProvided
    | ChallengedAndValidProofProvided
    | Resolved

  datatype Game = Game(block: nat, claim: nat, parent: nat, status: ProposalStatus, inProgress: bool, deadline: nat)

  /** The parent index of a game without a parent, u32::MAX. */
  const NO_PARENT: nat := 0xFFFF_FFFF

  predicate Valid(rootAt: nat -> nat, g: Game) { g.claim == rootAt(g.block) }

  // ---------------------------------------------------------------- the latest valid game

  function LatestValid(rootAt: nat -> nat, games: seq<Game>): (r: Option<nat>)
    ensures r.Some? ==> r.value < |games|
  {
    if games == [] then None
    else if Valid(rootAt, games[|games| - 1]) then Some(|games| - 1)
    else LatestValid(rootAt, games[..|games| - 1])
  }

  lemma {:induction false} LatestValidMeaning(rootAt: nat -> nat, games: seq<Game>)
    ensures match LatestValid(rootAt, games)
            case None => forall i :: 0 <= i < |games| ==> !Valid(rootAt, games[i])
            case Some(k) => k < |games| && Valid(rootAt, games[k]) && forall i :: k < i < |games| ==>
              !Valid(rootAt, games[i])
  {
    if games != [] && !Valid(rootAt, games[|games| - 1]) {
      LatestValidMeaning(rootAt, games[..|games| - 1]);
    }
  }

  /** What the scan finds: block number and index of the game, or a game at a block that the node cannot
      compute a root for. */
  datatype LatestProposal = Latest(block: nat, game: nat) | NoValid | RootUnknown

  /** The scan, which starts at the latest game, meets a game at an unknown block before it can stop. */
  predicate MeetsUnknown(rootAt: nat -> nat, known: nat -> bool, games: seq<Game>) {
    exists i :: 0 <= i < |games| && !known(games[i].block)
                && (LatestValid(rootAt, games) == None || i >= LatestValid(rootAt, games).value)
  }

  /** `get_latest_valid_proposal`. */
  method GetLatestValidProposal(rootAt: nat -> nat, known: nat -> bool, games: seq<Game>) returns (r: LatestProposal)
    ensures r == if MeetsUnknown(rootAt, known, games) then RootUnknown
                 else match LatestValid(rootAt, games) case None => NoValid case Some(k) => Latest(games[k].block, k)
  {
    if |games| == 0 { return NoValid; }
    var gameIndex := |games| - 1;
    LatestValidMeaning(rootAt, games);
    assert games[..gameIndex + 1] == games;
    while true
      invariant 0 <= gameIndex < |games|
      invariant LatestValid(rootAt, games) == LatestValid(rootAt, games[..gameIndex + 1])
      invariant forall i :: gameIndex < i < |games| ==> known(games[i].block)
      decreases gameIndex
    {
      assert games[..gameIndex + 1][..gameIndex] == games[..gameIndex];
      if !known(games[gameIndex].block) { return RootUnknown; }
      if games[gameIndex].claim == rootAt(games[gameIndex].block) { break; }
      if gameIndex == 0 { return NoValid; }
      gameIndex := gameIndex - 1;
    }
    return Latest(games[gameIndex].block, gameIndex);
  }

  // ---------------------------------------------------------------- windows

  function SaturatingSub(a: nat, b: nat): nat { if a < b then 0 else a - b }

  /** The first index from `lo` up to, but not including, `hi` that satisfies `p`. */
  function FirstIn(p: nat -> bool, lo: nat, hi: nat): Option<nat>
    decreases hi - lo
  {
    if lo >= hi then None else if p(lo) then Some(lo) else FirstIn(p, lo + 1, hi)
  }

  lemma {:induction false} FirstInMeaning(p: nat -> bool, lo: nat, hi: nat)
    ensures match FirstIn(p, lo, hi)
            case None => forall i: nat :: lo <= i < hi ==> !p(i)
            case Some(k) => lo <= k < hi && p(k) && forall i: nat :: lo <= i < k ==> !p(i)
    decreases hi - lo
  {
    if lo < hi && !p(lo) { FirstInMeaning(p, lo + 1, hi); }
  }

  lemma {:induction false} FirstInSplit(p: nat -> bool, lo: nat, mid: nat, hi: nat)
    requires lo <= mid <= hi
    ensures FirstIn(p, lo, hi) == if FirstIn(p, lo, mid).Some? then FirstIn(p, lo, mid) else FirstIn(p, mid, hi)
    decreases mid - lo
  {
    if lo < mid { FirstInSplit(p, lo + 1, mid, hi); }
  }

  /** Behind an index that satisfies `p` no prefix of the window is without one. */
  lemma PassesBefore(p: nat -> bool, lo: nat, at: nat)
    requires lo <= at && p(at)
    ensures forall i: nat :: at < i ==> FirstIn(p, lo, i) != None
  {
    forall i: nat | at < i ensures FirstIn(p, lo, i) != None { FirstInMeaning(p, lo, i); }
  }

  /** The games whose root the scan asks for: status and deadline (which must not have passed) are right. */
  function Asked(games: seq<Game>, now: nat, statusCheck: ProposalStatus -> bool): nat -> bool {
    (i: nat) => i < |games| && statusCheck(games[i].status) && games[i].deadline >= now
  }

  /** The games that pass the three checks: status, deadline and claim. */
  function Passing(games: seq<Game>, now: nat, statusCheck: ProposalStatus -> bool,
                   claimCheck: Game -> bool): nat -> bool {
    (i: nat) => Asked(games, now, statusCheck)(i) && claimCheck(games[i])
  }

  /** The scan for the oldest game asks for an unknown root before it can stop. */
  predicate AsksUnknown(games: seq<Game>, maxGames: nat, now: nat, known: nat -> bool,
                        statusCheck: ProposalStatus -> bool, claimCheck: Game -> bool)
  {
    var lo := SaturatingSub(|games|, maxGames + 1);
    exists i :: lo <= i < |games| && Asked(games, now, statusCheck)(i) && !known(games[i].block)
                && FirstIn(Passing(games, now, statusCheck, claimCheck), lo, i) == None
  }

  /** `get_oldest_game_address`, over the last `maxGames + 1` games; it fails exactly when a root that it asks
      for cannot be computed. */
  method GetOldestGame(games: seq<Game>, maxGames: nat, now: nat, known: nat -> bool,
                       statusCheck: ProposalStatus -> bool, claimCheck: Game -> bool)
    returns (ok: bool, r: Option<nat>)
    ensures ok <==> !AsksUnknown(games, maxGames, now, known, statusCheck, claimCheck)
    ensures r == if ok
      then FirstIn(Passing(games, now, statusCheck, claimCheck), SaturatingSub(|games|, maxGames + 1), |games|)
      else None
  {
    if |games| == 0 { return true, None; }
    var latest := |games| - 1;
    var oldest := SaturatingSub(latest, maxGames);
    var i := oldest;
    ghost var asked, p := Asked(games, now, statusCheck), Passing(games, now, statusCheck, claimCheck);
    while i <= latest
      invariant oldest <= i <= |games|
      invariant FirstIn(p, oldest, i) == None
      invariant forall k :: oldest <= k < i && asked(k) ==> known(games[k].block)
    {
      FirstInSplit(p, oldest, i, i + 1);
      FirstInSplit(p, oldest, i, |games|);
      if !statusCheck(games[i].status) { i := i + 1; continue; }
      if games[i].deadline < now { i := i + 1; continue; }
      if !known(games[i].block) { return false, None; }
      if claimCheck(games[i]) {
        PassesBefore(p, oldest, i);
        return true, Some(i);
      }
      i := i + 1;
    }
    return true, None;
  }

  /** The claimable game that the scan is documented to find: the window ends at the latest game. */
  function DocumentedClaimable(claimable: nat -> bool, count: nat, maxGames: nat): Option<nat> {
    FirstIn(claimable, SaturatingSub(count, maxGames + 1), count)
  }

  /** `get_oldest_claimable_bond_game_address`: the window ends before the latest game. */
  method GetOldestClaimableBond(claimable: nat -> bool, count: nat, maxGames: nat) returns (r: Option<nat>)
    ensures r == FirstIn(claimable, SaturatingSub(count, maxGames + 1), SaturatingSub(count, 1))
  {
    if count == 0 { return None; }
    var latest := count - 1;
    var oldest := SaturatingSub(latest, maxGames);
    var gamesToCheck := if latest < maxGames then latest else maxGames;
    assert oldest + gamesToCheck == latest;
    for i := 0 to gamesToCheck
      invariant FirstIn(claimable, oldest, latest) == FirstIn(claimable, oldest + i, latest)
    {
      var index := oldest + i;
      if claimable(index) { return Some(index); }
    }
    return None;
  }

  /** The scan misses a bond that the documentation promises to find exactly when the latest game is the
      only claimable one of the window. */
  lemma ClaimWindowMissesLatestIff(claimable: nat -> bool, count: nat, maxGames: nat)
    ensures var lo := SaturatingSub(count, maxGames + 1);
            FirstIn(claimable, lo, SaturatingSub(count, 1)) != DocumentedClaimable(claimable, count, maxGames)
            <==> count > 0 && claimable(count - 1) && forall i: nat :: lo <= i < count - 1 ==> !claimable(i)
  {
    if count > 0 {
      var lo, latest := SaturatingSub(count, maxGames + 1), count - 1;
      FirstInSplit(claimable, lo, latest, count);
      FirstInMeaning(claimable, lo, latest);
      assert FirstIn(claimable, count, count) == None;
    }
  }

  // ---------------------------------------------------------------- resolving

  datatype Mode = Proposer | Challenger

  function Wanted(mode: Mode): ProposalStatus {
    match mode case Proposer => Unchallenged case Challenger => Challenged
  }

  /** What `try_resolve_games` asks before it sends a transaction. */
  ghost predicate Resolvable(mode: Mode, now: nat, g: Game) {
    g.inProgress && g.status == Wanted(mode) && g.deadline < now
  }

  /** The oldest game of the window has no parent, or one that is in the list and resolved. */
  ghost predicate AttemptAllowed(games: seq<Game>, oldest: nat)
    requires oldest < |games|
  {
    var parent := games[oldest].parent;
    parent == NO_PARENT || (parent < |games| && !games[parent].inProgress)
  }

  /** `should_attempt_resolution`; a parent that is not in the list is an error. */
  method ShouldAttemptResolution(games: seq<Game>, oldest: nat) returns (ok: bool)
    requires oldest < |games|
    ensures ok == AttemptAllowed(games, oldest)
  {
    if games[oldest].parent == NO_PARENT { return true; }
    if games[oldest].parent >= |games| { return false; }
    return !games[games[oldest].parent].inProgress;
  }

  class Factory {
    var games: seq<Game>

    constructor ()
      ensures games == []
    {
      games := [];
    }

    /** `try_resolve_games`; the contract may refuse. */
    method TryResolveGame(i: nat, mode: Mode, now: nat, accepted: bool) returns (performed: bool)
      requires i < |games|
      modifies this
      ensures performed == (Resolvable(mode, now, old(games[i])) && accepted)
      ensures games == if performed then old(games)[i := old(games[i]).(inProgress := false, status := Resolved)]
        else old(games)
    {
      var g := games[i];
      if !g.inProgress { return false; }
      if g.status != Wanted(mode) { return false; }
      if g.deadline >= now { return false; }
      if !accepted { return false; }
      games := games[i := g.(inProgress := false, status := Resolved)];
      return true;
    }

    /** `resolve_games`: of the window that starts `maxGames` before the latest game and ends before it,
        exactly the games that are resolvable and accepted by the contract are resolved. */
    method ResolveGames(mode: Mode, maxGames: nat, now: nat, accepted: nat -> bool)
      modifies this
      ensures |games| == |old(games)|
      ensures forall i :: 0 <= i < |games| ==>
                var before, oldest := old(games), SaturatingSub(|games|, maxGames + 1);
                games[i] == if AttemptAllowed(before, oldest) && oldest <= i < |games| - 1
                  && Resolvable(mode, now, before[i]) && accepted(i)
                            then before[i].(inProgress := false, status := Resolved) else before[i]
    {
      if |games| == 0 { return; }
      var latest := |games| - 1;
      var oldest := SaturatingSub(latest, maxGames);
      var gamesToCheck := if latest < maxGames then latest else maxGames;
      var attempt := ShouldAttemptResolution(games, oldest);
      if !attempt { return; }
      ghost var before := games;
      for i := 0 to gamesToCheck
        invariant |games| == |before|
        invariant forall k :: 0 <= k < |games| ==>
          games[k] == if oldest <= k < oldest + i && Resolvable(mode, now, before[k]) && accepted(k)
                      then before[k].(inProgress := false, status := Resolved) else before[k]
      {
        var index := oldest + i;
        var performed := TryResolveGame(index, mode, now, accepted(index));
      }
    }
  }
}
