/** The in-memory manager of payment channels (channels/manager.py). */
module ChannelManagers {
  import opened Options
  import opened Signing
  import opened Channels

  class ChannelManager {
    const mac: Mac
    const minimumDeposit: real
    var order: seq<Id>
    var channels: map<Id, Channel>
    var senderKeys: map<Id, string>

    constructor (mac: Mac, minimumDeposit: real)
      ensures this.mac == mac && this.minimumDeposit == minimumDeposit && Book() == EMPTY && Valid()
    {
      this.mac, this.minimumDeposit := mac, minimumDeposit;
      order, channels, senderKeys := [], map[], map[];
    }

    function Book(): Book
      reads this
    {
      Channels.Book(order, channels, senderKeys)
    }

    ghost predicate Valid()
      reads this
    {
      BookOk(Book())
    }

    /** `id` is the identifier drawn for the channel. */
    method OpenChannel(id: Id, sender: string, receiver: string, deposit: real, senderKey: string)
      returns (result: Result<Channel, Error>)
      requires Valid() && id !in channels
      modifies this
      ensures Valid() && BookEvolves(old(Book()), Book())
      ensures (Book(), result)
           == Channels.OpenChannel(old(Book()), minimumDeposit, id, sender, receiver, deposit, senderKey)
    {
      OpenKeeps(Book(), minimumDeposit, id, sender, receiver, deposit, senderKey);
      if deposit < minimumDeposit {
        return Err(BelowMinimum);
      }
      if sender == "" {
        return Err(NoSender);
      }
      if receiver == "" {
        return Err(NoReceiver);
      }
      var state := Channel(id, sender, receiver, deposit, 0.0, 0, true);
      order, channels, senderKeys := order + [id], channels[id := state], senderKeys[id := senderKey];
      return Ok(state);
    }

    method CreatePayment(id: Id, amount: real) returns (result: Result<Update, Error>)
      requires Valid()
      modifies this`channels
      ensures Valid() && BookEvolves(old(Book()), Book()) && OnlyChanges(old(Book()), Book(), id)
      ensures (Book(), result) == Channels.CreatePayment(mac, old(Book()), id, amount)
      ensures result.Ok? ==>
                && id in old(channels) && 0.0 < amount <= old(channels[id].deposit - channels[id].spent)
                && channels[id].spent == old(channels[id].spent) + amount
    {
      assert Listed(Book(), id);
      PaymentKeeps(mac, Book(), id, amount);
      var found := GetOpenChannel(id);
      if found.Err? {
        return Err(found.error);
      }
      var state := found.value;
      var spent := state.spent + amount;
      if spent > state.deposit {
        return Err(ExceedsDeposit);
      }
      if amount <= 0.0 {
        return Err(NotPositive);
      }
      var nonce := state.nonce + 1;
      var signature := SignPayment(mac, state.id, spent, nonce, senderKeys[id]);
      if signature.None? {
        return Err(CannotPack);
      }
      channels := channels[id := state.(spent := spent, nonce := nonce)];
      return Ok(Update(state.id, spent, nonce, signature.value));
    }

    method ReceivePayment(u: Update) returns (result: Result<bool, Error>)
      requires Valid()
      modifies this`channels
      ensures Valid() && BookEvolves(old(Book()), Book()) && OnlyChanges(old(Book()), Book(), u.id)
      ensures (Book(), result) == Channels.ReceivePayment(mac, old(Book()), u)
    {
      assert Listed(Book(), u.id);
      ReceiptKeeps(mac, Book(), u);
      var found := GetOpenChannel(u.id);
      if found.Err? {
        return Err(found.error);
      }
      var state := found.value;
      if u.nonce != state.nonce + 1 {
        return Err(NonceMismatch);
      }
      if u.amount > state.deposit {
        return Err(AmountExceedsDeposit);
      }
      if u.amount < state.spent {
        return Err(AmountDecreases);
      }
      var verified := VerifySignature(mac, u.id, u.amount, u.nonce, u.signature, senderKeys[u.id]);
      if verified.None? {
        return Err(RaisedBy(u));
      }
      if !verified.value {
        return Err(BadSignature);
      }
      channels := channels[u.id := state.(spent := u.amount, nonce := u.nonce)];
      return Ok(true);
    }

    method CloseChannel(id: Id, receiverKey: string) returns (result: Result<Proof, Error>)
      requires Valid()
      modifies this`channels
      ensures Valid() && BookEvolves(old(Book()), Book()) && OnlyChanges(old(Book()), Book(), id)
      ensures (Book(), result) == Channels.CloseChannel(mac, old(Book()), id, receiverKey)
      ensures result.Ok? ==> !channels[id].isOpen && result.value.finalAmount == channels[id].spent
    {
      assert Listed(Book(), id);
      ClosingKeeps(mac, Book(), id, receiverKey);
      var found := GetOpenChannel(id);
      if found.Err? {
        return Err(found.error);
      }
      var state := found.value;
      var senderSig := SignPayment(mac, state.id, state.spent, state.nonce, senderKeys[id]);
      var receiverSig := SignPayment(mac, state.id, state.spent, state.nonce, receiverKey);
      if senderSig.None? || receiverSig.None? {
        return Err(CannotPack);
      }
      channels := channels[id := state.(isOpen := false)];
      return Ok(Proof(state.id, state.nonce, state.spent, senderSig.value, receiverSig.value));
    }

    method GetChannelsFor(address: string) returns (result: seq<Channel>)
      ensures result == ChannelsFor(Book(), address, order)
      ensures forall ch :: ch in result <==>
                exists id :: && id in order && id in channels && channels[id] == ch
                             && ch.isOpen && (ch.sender == address || ch.receiver == address)
    {
      result := [];
      for i := 0 to |order|
        invariant result + ChannelsFor(Book(), address, order[i..]) == ChannelsFor(Book(), address, order)
      {
        assert order[i..][1..] == order[i + 1..];
        var id := order[i];
        if id in channels && channels[id].isOpen
           && (channels[id].sender == address || channels[id].receiver == address) {
          result := result + [channels[id]];
        }
      }
    }

    method GetOpenChannel(id: Id) returns (result: Result<Channel, Error>)
      ensures result == (if id !in channels then Err(NotFound)
                         else if !channels[id].isOpen then Err(Closed)
                         else Ok(channels[id]))
    {
      if id !in channels {
        return Err(NotFound);
      }
      if !channels[id].isOpen {
        return Err(Closed);
      }
      return Ok(channels[id]);
    }
  }
}
