/**
 * The bet slip of the user profile page. The list of bets is component
 * state that the two handlers replace by a new list (a `filter` for cancel,
 * a `map` for redeem). The balance lives in a module-level user record that
 * redeem updates in place.
 */
module ProfileBets {
  import opened Common

  datatype Status = Matched | Unmatched | Settled | Redeemed

  /**
   * One row of the bet slip. `potentialWin` and `winnings` are absent on the
   * rows that do not carry them (an unmatched bet has neither).
   */
  datatype Bet = Bet(
    id: int,
    market: string,
    prediction: string,
    odds: real,
    stake: int,
    status: Status,
    potentialWin: Option<int>,
    winnings: Option<int>)

  /** A number as the page stores it: an integer amount, or NaN. */
  datatype Num = Finite(n: int) | NaN

  /**
   * `balance += amount`, where adding an absent field yields NaN, and NaN
   * once reached absorbs every later credit.
   */
  function Credit(balance: Num, amount: Option<int>): (r: Num)
    ensures r.Finite? <==> balance.Finite? && amount.Some?
    ensures r.Finite? ==> r.n - balance.n == amount.value
  {
    match (balance, amount)
    case (Finite(n), Some(w)) => Finite(n + w)
    case _ => NaN
  }

  /** Two redeems credit the same balance whichever is done first. */
  lemma CreditsCommute(balance: Num, x: Option<int>, y: Option<int>)
    ensures Credit(Credit(balance, x), y) == Credit(Credit(balance, y), x)
  {
  }

  // ---------------------------------------------------------------------
  // Cancel: drop every bet with the given id
  // ---------------------------------------------------------------------

  function Cancel(bets: seq<Bet>, betId: int): (r: seq<Bet>)
    ensures forall b :: b in r ==> b.id != betId
    ensures forall b :: multiset(r)[b] == if b.id == betId then 0 else multiset(bets)[b]
  {
    if bets == [] then []
    else
      assert bets == [bets[0]] + bets[1..];
      (if bets[0].id != betId then [bets[0]] else []) + Cancel(bets[1..], betId)
  }

  /**
   * Cancel works piece by piece: cancelling in a concatenation is the
   * concatenation of the cancelled pieces, so the bets that stay keep their
   * original relative order.
   */
  lemma {:induction false} CancelDistributes(a: seq<Bet>, b: seq<Bet>, betId: int)
    ensures Cancel(a + b, betId) == Cancel(a, betId) + Cancel(b, betId)
  {
    if a == [] {
      assert a + b == b;
    } else {
      var head := if a[0].id != betId then [a[0]] else [];
      assert (a + b)[0] == a[0];
      assert (a + b)[1..] == a[1..] + b;
      CancelDistributes(a[1..], b, betId);
      calc {
        Cancel(a + b, betId);
        head + Cancel(a[1..] + b, betId);
        head + (Cancel(a[1..], betId) + Cancel(b, betId));
        (head + Cancel(a[1..], betId)) + Cancel(b, betId);
        Cancel(a, betId) + Cancel(b, betId);
      }
    }
  }

  /** Cancelling an id that no bet carries leaves the list as it is. */
  lemma {:induction false} CancelAbsent(bets: seq<Bet>, betId: int)
    requires forall b :: b in bets ==> b.id != betId
    ensures Cancel(bets, betId) == bets
  {
    if bets != [] {
      assert bets[0] in bets;
      CancelAbsent(bets[1..], betId);
    }
  }

  /** Cancelling the same id twice is the same as cancelling it once. */
  lemma CancelIdempotent(bets: seq<Bet>, betId: int)
    ensures Cancel(Cancel(bets, betId), betId) == Cancel(bets, betId)
  {
    CancelAbsent(Cancel(bets, betId), betId);
  }

  // ---------------------------------------------------------------------
  // Redeem: mark the bets with the given id as redeemed
  // ---------------------------------------------------------------------

  function MarkRedeemed(bets: seq<Bet>, betId: int): (r: seq<Bet>)
    ensures |r| == |bets|
    ensures forall i :: 0 <= i < |bets| && bets[i].id != betId ==> r[i] == bets[i]
    ensures forall i :: 0 <= i < |bets| && bets[i].id == betId ==>
              r[i].status == Redeemed && r[i] == bets[i].(status := Redeemed)
  {
    if bets == [] then []
    else
      [if bets[0].id == betId then bets[0].(status := Redeemed) else bets[0]]
        + MarkRedeemed(bets[1..], betId)
  }

  /** Redeeming keeps every bet's id at its position. */
  lemma MarkRedeemedKeepsIds(bets: seq<Bet>, betId: int)
    ensures forall i :: 0 <= i < |bets| ==> MarkRedeemed(bets, betId)[i].id == bets[i].id
  {
  }

  /** Redeeming the same id twice is the same as redeeming it once. */
  lemma MarkRedeemedIdempotent(bets: seq<Bet>, betId: int)
    ensures MarkRedeemed(MarkRedeemed(bets, betId), betId) == MarkRedeemed(bets, betId)
  {
    var once := MarkRedeemed(bets, betId);
    assert forall i :: 0 <= i < |once| ==> MarkRedeemed(once, betId)[i] == once[i];
  }

  /** Position `i` holds the first bet with the given id. */
  predicate FirstWithId(bets: seq<Bet>, betId: int, i: int)
  {
    0 <= i < |bets| && bets[i].id == betId && forall j :: 0 <= j < i ==> bets[j].id != betId
  }

  /** The first bet with the given id, if any (`Array.prototype.find`). */
  function FindBet(bets: seq<Bet>, betId: int): (r: Option<Bet>)
    ensures r.None? <==> forall b :: b in bets ==> b.id != betId
    ensures r.Some? ==> exists i :: FirstWithId(bets, betId, i) && bets[i] == r.value
  {
    if bets == [] then None
    else if bets[0].id == betId then
      assert FirstWithId(bets, betId, 0);
      Some(bets[0])
    else
      var r := FindBet(bets[1..], betId);
      if r.Some? then
        var i :| FirstWithId(bets[1..], betId, i) && bets[1..][i] == r.value;
        assert FirstWithId(bets, betId, i + 1);
        r
      else r
  }

  /**
   * The handler itself does not look at the status: after a redeem, the
   * same bet is still found with the same winnings, so a second call would
   * credit them again. Only the status gate below keeps the page from
   * offering that second call.
   */
  lemma RedeemAgainFindsSameWinnings(bets: seq<Bet>, betId: int)
    ensures FindBet(MarkRedeemed(bets, betId), betId).Some? == FindBet(bets, betId).Some?
    ensures FindBet(bets, betId).Some? ==>
              FindBet(MarkRedeemed(bets, betId), betId).value.winnings
                == FindBet(bets, betId).value.winnings
  {
    var r := MarkRedeemed(bets, betId);
    MarkRedeemedKeepsIds(bets, betId);
    var found, foundAgain := FindBet(bets, betId), FindBet(r, betId);
    if found.Some? {
      var i :| FirstWithId(bets, betId, i) && bets[i] == found.value;
      assert r[i].id == betId && r[i] in r;
      var k :| FirstWithId(r, betId, k) && r[k] == foundAgain.value;
      assert k == i;
    } else {
      assert forall b :: b in r ==> b.id != betId;
    }
  }

  // ---------------------------------------------------------------------
  // Which action a row offers
  // ---------------------------------------------------------------------

  datatype RowAction = NoAction | CancelAction | RedeemAction

  /** The action button a bet's row shows. */
  function OfferedAction(b: Bet): (a: RowAction)
    ensures a == CancelAction <==> b.status == Unmatched
    ensures a == RedeemAction <==> b.status == Settled
  {
    if b.status == Unmatched then CancelAction
    else if b.status == Settled then RedeemAction
    else NoAction
  }

  /** After a redeem, no bet with that id offers any action any more. */
  lemma RedeemedRowsOfferNothing(bets: seq<Bet>, betId: int)
    ensures forall b :: b in MarkRedeemed(bets, betId) && b.id == betId ==> OfferedAction(b) == NoAction
  {
    var r := MarkRedeemed(bets, betId);
    forall b | b in r && b.id == betId
      ensures OfferedAction(b) == NoAction
    {
      var i :| 0 <= i < |r| && r[i] == b;
      MarkRedeemedKeepsIds(bets, betId);
    }
  }

  // ---------------------------------------------------------------------
  // Progress display
  // ---------------------------------------------------------------------

  const Milestones: seq<int> := [25, 50, 75, 100]

  /**
   * Which milestone badges are lit for a number of bets placed. The lit
   * badges always form a prefix: a later badge is never lit alone.
   */
  function MilestonesReached(totalBets: int): (r: seq<bool>)
    ensures |r| == |Milestones|
    ensures forall i :: 0 <= i < |r| ==> (r[i] <==> totalBets >= Milestones[i])
    ensures forall i, j :: 0 <= i < j < |r| && r[j] ==> r[i]
  {
    seq(|Milestones|, i requires 0 <= i < |Milestones| => totalBets >= Milestones[i])
  }

  /** Placing more bets never puts out a badge. */
  lemma MilestonesMonotone(fewer: int, more: int)
    requires fewer <= more
    ensures forall i :: 0 <= i < |Milestones| && MilestonesReached(fewer)[i] ==>
              MilestonesReached(more)[i]
  {
  }

  /** XP still missing to the next level, out of a level size of 100. */
  function XpToNextLevel(xp: int): (r: int)
    ensures xp + r == 100
    ensures 0 <= xp <= 100 ==> 0 <= r <= 100
  {
    100 - xp
  }

  // ---------------------------------------------------------------------
  // Page state
  // ---------------------------------------------------------------------

  /** The module-level user record; only its balance changes. */
  class UserData {
    var balance: Num

    constructor (balance: Num)
      ensures this.balance == balance
    {
      this.balance := balance;
    }
  }

  class ProfilePage {
    var bets: seq<Bet>
    const userData: UserData

    constructor (userData: UserData, bets: seq<Bet>)
      ensures this.userData == userData && this.bets == bets
    {
      this.userData := userData;
      this.bets := bets;
    }

    /** The Cancel button's handler. */
    method CancelUnmatchedOrder(betId: int)
      modifies this
      ensures bets == Cancel(old(bets), betId)
      ensures userData.balance == old(userData.balance)
    {
      bets := Cancel(bets, betId);
    }

    /**
     * The Redeem button's handler. It stores the marked list, then adds the
     * found bet's winnings to the balance; when no bet has the id, the
     * lookup yields nothing and reading its winnings throws (`threw`)
     * before the balance is touched.
     */
    method RedeemWinnings(betId: int) returns (threw: bool)
      modifies this, userData
      ensures bets == MarkRedeemed(old(bets), betId)
      ensures threw <==> FindBet(old(bets), betId).None?
      ensures threw ==> userData.balance == old(userData.balance)
      ensures !threw ==>
                userData.balance == Credit(old(userData.balance), FindBet(old(bets), betId).value.winnings)
    {
      var found := FindBet(bets, betId);
      bets := MarkRedeemed(bets, betId);
      if found.None? {
        threw := true;
        return;
      }
      threw := false;
      userData.balance := Credit(userData.balance, found.value.winnings);
    }
  }

  /**
   * Redeeming a settled bet that carries winnings `w` raises a finite
   * balance by exactly `w`, marks that bet redeemed and leaves its
   * Redeem button gone.
   */
  lemma RedeemSettledBet(bets: seq<Bet>, betId: int, n: int, w: int)
    requires FindBet(bets, betId).Some?
    requires FindBet(bets, betId).value.status == Settled
    requires FindBet(bets, betId).value.winnings == Some(w)
    ensures Credit(Finite(n), FindBet(bets, betId).value.winnings) == Finite(n + w)
    ensures forall b :: b in MarkRedeemed(bets, betId) && b.id == betId ==> b.status == Redeemed
    ensures |MarkRedeemed(bets, betId)| == |bets|
  {
    var r := MarkRedeemed(bets, betId);
    forall b | b in r && b.id == betId
      ensures b.status == Redeemed
    {
      var i :| 0 <= i < |r| && r[i] == b;
    }
  }
}
