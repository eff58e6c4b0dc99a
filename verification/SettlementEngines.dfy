/** The settlement engine as an object beside a channel manager (revenue/settlement.py). */
module SettlementEngines {
  import opened Options
  import opened Bytes
  import opened Signing
  import opened Channels
  import opened ChannelManagers
  import opened Shares
  import opened Rounding
  import opened Sums
  import opened Settlements
  import opened Earnings

  class SettlementEngine {
    const manager: ChannelManager?
    const minimum: real
    var earnings: map<string, real>
    var settlements: seq<Settlement>

    constructor (manager: ChannelManager?, minimum: real)
      ensures this.manager == manager && this.minimum == minimum && earnings == map[] && settlements == []
    {
      this.manager, this.minimum := manager, minimum;
      earnings, settlements := map[], [];
    }

    ghost predicate Valid()
      reads this, manager
    {
      manager != null ==> manager.Valid()
    }

    function Books(): Option<Book>
      reads this, manager
    {
      if manager == null then None else Some(manager.Book())
    }

    function Contents(): Engine
      reads this, manager
    {
      Engine(Books(), earnings, settlements)
    }

    /** How the manager signs; without one nothing is signed. */
    function Signer(): Mac {
      if manager == null then (key, message) => ZeroHash() else manager.mac
    }

    /** `id` is the identifier drawn for the settlement. */
    method Settle(id: string, execution: string, shares: seq<Share>, fee: Fee, total: real)
      returns (result: Result<Settlement, Failure>)
      requires Valid()
      modifies this, manager
      ensures Valid()
      ensures (Contents(), result)
           == Settlements.Settle(Signer(), old(Contents()), minimum, id, execution, shares, fee, total)
    {
      if total < minimum {
        return Err(BelowThreshold);
      }
      var done, raised := SettleShares(shares);
      if raised {
        return Err(Uncaught);
      }
      var settlement := Settlement(id, execution, done, fee, total);
      settlements := settlements + [settlement];
      return Ok(settlement);
    }

    /** The shares in order, up to an uncaught exception. */
    method SettleShares(shares: seq<Share>) returns (done: seq<Share>, raised: bool)
      requires Valid()
      modifies this`earnings, manager
      ensures Valid()
      ensures SettleAll(Signer(), Begin(old(Contents())), shares) == Progress(Books(), earnings, done, raised)
    {
      done := [];
      ghost var start := Begin(Contents());
      assert shares[..0] == [];
      for i := 0 to |shares|
        invariant Valid() && HasReached(Signer(), start, shares, i, Books(), earnings, done, false)
      {
        var share := shares[i];
        ghost var book := Books();
        var paid := TryChannelPayment(share);
        OneMore(Signer(), start, shares, i, book, earnings, done, Books(), paid);
        if paid.None? {
          return done, true;
        }
        done := done + [share.(settled := paid.value)];
        earnings := earnings[share.participant := Earned(earnings, share.participant) + share.amount];
      }
      assert shares[..|shares|] == shares;
      raised := false;
    }

    method TryChannelPayment(share: Share) returns (paid: Option<bool>)
      requires Valid()
      modifies manager
      ensures Valid() && (Books(), paid) == TryPayment(Signer(), old(Books()), share)
    {
      if manager == null || share.amount <= 0.0 {
        return Some(true);
      }
      var channels := manager.GetChannelsFor(share.participant);
      ghost var before := manager.Book();
      for i := 0 to |channels|
        invariant Valid()
        invariant FirstFit(manager.mac, before, channels, share.participant, share.amount)
               == FirstFit(manager.mac, manager.Book(), channels[i..], share.participant, share.amount)
      {
        assert channels[i..][1..] == channels[i + 1..];
        var ch := channels[i];
        if ch.receiver == share.participant && ch.deposit - ch.spent >= share.amount {
          var payment := manager.CreatePayment(ch.id, share.amount);
          if payment.Ok? {
            return Some(true);
          }
          if payment.error.CannotPack? {
            return None;
          }
        }
      }
      paid := Some(false);
    }

    method GetProtocolStats() returns (count: nat, fees: real, burned: real, volume: real)
      ensures count == |settlements|
      ensures fees == Round8(SumOf(FeeAmount, settlements)) && burned == Round8(SumOf(BurnAmount, settlements))
      ensures volume == Round8(SumOf(Volume, settlements))
    {
      count, fees, burned, volume := 0, 0.0, 0.0, 0.0;
      for i := 0 to |settlements|
        invariant count == i
        invariant fees == SumOf(FeeAmount, settlements[..i]) && burned == SumOf(BurnAmount, settlements[..i])
        invariant volume == SumOf(Volume, settlements[..i])
      {
        SumUpTo(FeeAmount, settlements, i);
        SumUpTo(BurnAmount, settlements, i);
        SumUpTo(Volume, settlements, i);
        var s := settlements[i];
        fees, burned, volume, count := fees + s.fee.amount, burned + s.fee.burn, volume + s.total, count + 1;
      }
      assert settlements[..|settlements|] == settlements;
      fees, burned, volume := Round8(fees), Round8(burned), Round8(volume);
    }
  }

  /** Where the loop over the shares stands. */
  predicate HasReached(mac: Mac, start: Progress, shares: seq<Share>, i: nat, book: Option<Book>,
                       earnings: map<string, real>, done: seq<Share>, raised: bool)
  {
    i <= |shares| && SettleAll(mac, start, shares[..i]) == Progress(book, earnings, done, raised)
  }

  lemma OneMore(mac: Mac, start: Progress, shares: seq<Share>, i: nat, book: Option<Book>, earnings: map<string, real>,
                done: seq<Share>, book': Option<Book>, paid: Option<bool>)
    requires i < |shares| && HasReached(mac, start, shares, i, book, earnings, done, false)
    requires TryPayment(mac, book, shares[i]) == (book', paid)
    ensures paid.None? ==> SettleAll(mac, start, shares) == Progress(book', earnings, done, true)
    ensures paid.Some? ==>
              var s := shares[i];
              HasReached(mac, start, shares, i + 1, book',
                         earnings[s.participant := Earned(earnings, s.participant) + s.amount],
                         done + [s.(settled := paid.value)], false)
  {
    assert shares[..i + 1][..i] == shares[..i];
    if paid.None? {
      RaisedStays(mac, start, shares, i + 1);
    }
  }

  /** After an uncaught exception nothing more happens. */
  lemma {:induction false} RaisedStays(mac: Mac, start: Progress, shares: seq<Share>, n: nat)
    requires n <= |shares| && SettleAll(mac, start, shares[..n]).raised
    ensures SettleAll(mac, start, shares) == SettleAll(mac, start, shares[..n])
    decreases |shares|
  {
    if n == |shares| {
      assert shares[..n] == shares;
    } else {
      assert shares[..|shares| - 1][..n] == shares[..n];
      RaisedStays(mac, start, shares[..|shares| - 1], n);
    }
  }
}
