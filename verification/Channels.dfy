/** Payment channels: what each operation does to one of them and to a manager's book of them (channels/manager.py). */
module Channels {
  import opened Options
  import opened Bytes
  import opened Signing

  type Id = seq<byte>

  datatype Channel = Channel(id: Id, sender: string, receiver: string, deposit: real, spent: real, nonce: int,
                             isOpen: bool)

  /** `amount` is cumulative. */
  datatype Update = Update(id: Id, amount: real, nonce: int, signature: string)

  datatype Proof = Proof(id: Id, finalNonce: int, finalAmount: real, senderSig: string, receiverSig: string)

  datatype Error =
    | BelowMinimum | NoSender | NoReceiver | NotFound | Closed | ExceedsDeposit | NotPositive | CannotPack
    | NonceMismatch | AmountExceedsDeposit | AmountDecreases | CannotCompare | BadSignature

  // ---------- one channel ----------

  function Pay(mac: Mac, ch: Channel, key: string, amount: real): Result<(Channel, Update), Error> {
    if !ch.isOpen then Err(Closed)
    else if ch.spent + amount > ch.deposit then Err(ExceedsDeposit)
    else if amount <= 0.0 then Err(NotPositive)
    else
      var spent, nonce := ch.spent + amount, ch.nonce + 1;
      match SignPayment(mac, ch.id, spent, nonce, key)
      case None => Err(CannotPack)
      case Some(signature) => Ok((ch.(spent := spent, nonce := nonce), Update(ch.id, spent, nonce, signature)))
  }

  /** Which exception the verification of an update dies of. */
  function RaisedBy(u: Update): Error { if PackU64(u.nonce).None? then CannotPack else CannotCompare }

  function Receive(mac: Mac, ch: Channel, key: string, u: Update): Result<Channel, Error> {
    if !ch.isOpen then Err(Closed)
    else if u.nonce != ch.nonce + 1 then Err(NonceMismatch)
    else if u.amount > ch.deposit then Err(AmountExceedsDeposit)
    else if u.amount < ch.spent then Err(AmountDecreases)
    else
      match VerifySignature(mac, u.id, u.amount, u.nonce, u.signature, key)
      case None => Err(RaisedBy(u))
      case Some(ok) => if ok then Ok(ch.(spent := u.amount, nonce := u.nonce)) else Err(BadSignature)
  }

  function Close(mac: Mac, ch: Channel, senderKey: string, receiverKey: string): Result<(Channel, Proof), Error> {
    if !ch.isOpen then Err(Closed)
    else
      match (SignPayment(mac, ch.id, ch.spent, ch.nonce, senderKey),
             SignPayment(mac, ch.id, ch.spent, ch.nonce, receiverKey))
      case (Some(s), Some(r)) => Ok((ch.(isOpen := false), Proof(ch.id, ch.nonce, ch.spent, s, r)))
      case _ => Err(CannotPack)
  }

  /** Never overspent: a channel opened with a negative deposit cannot pay at all. */
  predicate ChannelOk(ch: Channel) {
    0.0 <= ch.spent && (ch.spent <= ch.deposit || ch.spent == 0.0) && ch.nonce >= 0
  }

  /** How a channel may change: closed for good, spending and counting upwards only. */
  predicate Evolves(ch: Channel, ch': Channel) {
    && ch'.id == ch.id && ch'.sender == ch.sender && ch'.receiver == ch.receiver && ch'.deposit == ch.deposit
    && ch.spent <= ch'.spent && ch.nonce <= ch'.nonce
    && (ch'.nonce == ch.nonce ==> ch'.spent == ch.spent)
    && (!ch.isOpen ==> ch' == ch)
  }

  // ---------- the book of a manager ----------

  /** `order` lists the channels as they were opened. */
  datatype Book = Book(order: seq<Id>, channels: map<Id, Channel>, keys: map<Id, string>)

  const EMPTY: Book := Book([], map[], map[])

  function OpenChannel(b: Book, minimum: real, id: Id, sender: string, receiver: string, deposit: real, key: string):
    (Book, Result<Channel, Error>)
  {
    if deposit < minimum then (b, Err(BelowMinimum))
    else if sender == "" then (b, Err(NoSender))
    else if receiver == "" then (b, Err(NoReceiver))
    else
      var ch := Channel(id, sender, receiver, deposit, 0.0, 0, true);
      (Book(b.order + [id], b.channels[id := ch], b.keys[id := key]), Ok(ch))
  }

  function CreatePayment(mac: Mac, b: Book, id: Id, amount: real): (Book, Result<Update, Error>) {
    if id !in b.channels || id !in b.keys then (b, Err(NotFound))
    else match Pay(mac, b.channels[id], b.keys[id], amount)
         case Err(e) => (b, Err(e))
         case Ok((ch, u)) => (b.(channels := b.channels[id := ch]), Ok(u))
  }

  function ReceivePayment(mac: Mac, b: Book, u: Update): (Book, Result<bool, Error>) {
    if u.id !in b.channels || u.id !in b.keys then (b, Err(NotFound))
    else match Receive(mac, b.channels[u.id], b.keys[u.id], u)
         case Err(e) => (b, Err(e))
         case Ok(ch) => (b.(channels := b.channels[u.id := ch]), Ok(true))
  }

  function CloseChannel(mac: Mac, b: Book, id: Id, receiverKey: string): (Book, Result<Proof, Error>) {
    if id !in b.channels || id !in b.keys then (b, Err(NotFound))
    else match Close(mac, b.channels[id], b.keys[id], receiverKey)
         case Err(e) => (b, Err(e))
         case Ok((ch, proof)) => (b.(channels := b.channels[id := ch]), Ok(proof))
  }

  predicate Involves(b: Book, address: string, id: Id) {
    && id in b.channels && b.channels[id].isOpen
    && (b.channels[id].sender == address || b.channels[id].receiver == address)
  }

  /** The open channels of an address, in the order they were opened. */
  function ChannelsFor(b: Book, address: string, order: seq<Id>): (r: seq<Channel>)
    ensures forall ch :: ch in r <==>
              exists k :: 0 <= k < |order| && Involves(b, address, order[k]) && b.channels[order[k]] == ch
  {
    if order == [] then []
    else
      var rest := ChannelsFor(b, address, order[1..]);
      assert forall k :: 0 < k < |order| ==> order[k] == order[1..][k - 1];
      if Involves(b, address, order[0]) then [b.channels[order[0]]] + rest else rest
  }

  // ---------- what each operation does ----------

  /** A channel opens for the parties and the deposit given, unspent, and last in the book. */
  lemma OpenOutcome(b: Book, minimum: real, id: Id, sender: string, receiver: string, deposit: real, key: string)
    ensures var (b', result) := OpenChannel(b, minimum, id, sender, receiver, deposit, key);
            && (result.Ok? <==> deposit >= minimum && sender != "" && receiver != "")
            && (result == Err(BelowMinimum) <==> deposit < minimum)
            && (result == Err(NoSender) <==> deposit >= minimum && sender == "")
            && (result.Err? ==> b' == b && result.error in {BelowMinimum, NoSender, NoReceiver})
    ensures var (b', result) := OpenChannel(b, minimum, id, sender, receiver, deposit, key);
            result.Ok? ==>
              && b'.order == b.order + [id]
              && b'.channels.Keys == b.channels.Keys + {id} && b'.channels[id] == result.value
              && b'.keys.Keys == b.keys.Keys + {id} && b'.keys[id] == key
              && (forall x :: x in b.channels && x != id ==> b'.channels[x] == b.channels[x])
              && (forall x :: x in b.keys && x != id ==> b'.keys[x] == b.keys[x])
              && var ch := result.value;
                 && ch.id == id && ch.sender == sender && ch.receiver == receiver && ch.deposit == deposit
                 && ch.spent == 0.0 && ch.nonce == 0 && ch.isOpen
  {
  }

  /** A payment that is positive and fits adds to what was spent, counts one nonce on, and comes with the payer's
      signature of the new total. */
  lemma PayOutcome(mac: Mac, ch: Channel, key: string, amount: real)
    ensures var result := Pay(mac, ch, key, amount);
            && (result.Ok? <==>
                  ch.isOpen && 0.0 < amount && ch.spent + amount <= ch.deposit && 0 <= ch.nonce + 1 < TWO_64)
            && (result == Err(Closed) <==> !ch.isOpen)
            && (result == Err(ExceedsDeposit) <==> ch.isOpen && ch.spent + amount > ch.deposit)
            && (result == Err(NotPositive) <==> ch.isOpen && ch.spent + amount <= ch.deposit && amount <= 0.0)
            && (result.Err? ==> result.error in {Closed, ExceedsDeposit, NotPositive, CannotPack})
    ensures var result := Pay(mac, ch, key, amount);
            result.Ok? ==>
              var (ch', u) := result.value;
              && ch'.id == ch.id && ch'.sender == ch.sender && ch'.receiver == ch.receiver
              && ch'.deposit == ch.deposit && ch'.isOpen
              && ch'.spent == u.amount && u.amount == ch.spent + amount && ch'.nonce == u.nonce == ch.nonce + 1
              && u.id == ch.id && u.signature == mac(key, BuildMessage(ch.id, u.amount, u.nonce).value)
  {
  }

  /** An update is taken when it is the next one, within the deposit, no less than before, and bears the payer's
      signature. */
  lemma ReceiveOutcome(mac: Mac, ch: Channel, key: string, u: Update)
    ensures var result := Receive(mac, ch, key, u);
            && (result.Ok? <==>
                  && ch.isOpen && u.nonce == ch.nonce + 1 && ch.spent <= u.amount <= ch.deposit
                  && 0 <= u.nonce < TWO_64 && u.signature == mac(key, BuildMessage(u.id, u.amount, u.nonce).value))
            && (result == Err(Closed) <==> !ch.isOpen)
            && (result == Err(NonceMismatch) <==> ch.isOpen && u.nonce != ch.nonce + 1)
            && (result == Err(AmountExceedsDeposit) <==> ch.isOpen && u.nonce == ch.nonce + 1 && u.amount > ch.deposit)
            && (result == Err(AmountDecreases) <==>
                  ch.isOpen && u.nonce == ch.nonce + 1 && u.amount <= ch.deposit && u.amount < ch.spent)
            && (result == Err(BadSignature) <==>
                  && ch.isOpen && u.nonce == ch.nonce + 1 && ch.spent <= u.amount <= ch.deposit
                  && 0 <= u.nonce < TWO_64 && IsAscii(u.signature)
                  && u.signature != mac(key, BuildMessage(u.id, u.amount, u.nonce).value))
    ensures var result := Receive(mac, ch, key, u);
            result.Ok? ==>
              var ch' := result.value;
              && ch'.id == ch.id && ch'.sender == ch.sender && ch'.receiver == ch.receiver
              && ch'.deposit == ch.deposit && ch'.isOpen && ch'.spent == u.amount && ch'.nonce == u.nonce
  {
  }

  /** An open channel closes where it stands; the proof names it, its nonce and its amount, and is signed by the
      sender's key and by the receiver's. */
  lemma CloseOutcome(mac: Mac, ch: Channel, senderKey: string, receiverKey: string)
    ensures var result := Close(mac, ch, senderKey, receiverKey);
            && (result.Ok? <==> ch.isOpen && 0 <= ch.nonce < TWO_64)
            && (result == Err(Closed) <==> !ch.isOpen)
            && (result.Err? ==> result.error in {Closed, CannotPack})
    ensures var result := Close(mac, ch, senderKey, receiverKey);
            result.Ok? ==>
              var (ch', p) := result.value;
              var message := BuildMessage(ch.id, ch.spent, ch.nonce).value;
              && ch'.id == ch.id && ch'.sender == ch.sender && ch'.receiver == ch.receiver
              && ch'.deposit == ch.deposit && ch'.spent == ch.spent && ch'.nonce == ch.nonce && !ch'.isOpen
              && p.id == ch.id && p.finalNonce == ch.nonce && p.finalAmount == ch.spent
              && p.senderSig == mac(senderKey, message) && p.receiverSig == mac(receiverKey, message)
  {
  }

  /** Paying, receiving and closing reach the channel and the key that the book holds under the identifier; an unknown
      one is not found, and a failure changes nothing. */
  lemma BookOutcomes(mac: Mac, b: Book, id: Id, amount: real, u: Update, receiverKey: string)
    ensures var (b', result) := CreatePayment(mac, b, id, amount);
            if id in b.channels && id in b.keys && Pay(mac, b.channels[id], b.keys[id], amount).Ok? then
              var (ch, update) := Pay(mac, b.channels[id], b.keys[id], amount).value;
              result == Ok(update) && OnlyChanges(b, b', id) && b'.channels[id] == ch
            else result.Err? && b' == b && (id !in b.channels ==> result == Err(NotFound))
    ensures var (b', result) := ReceivePayment(mac, b, u);
            if u.id in b.channels && u.id in b.keys && Receive(mac, b.channels[u.id], b.keys[u.id], u).Ok? then
              result == Ok(true) && OnlyChanges(b, b', u.id)
              && b'.channels[u.id] == Receive(mac, b.channels[u.id], b.keys[u.id], u).value
            else result.Err? && b' == b && (u.id !in b.channels ==> result == Err(NotFound))
    ensures var (b', result) := CloseChannel(mac, b, id, receiverKey);
            if id in b.channels && id in b.keys && Close(mac, b.channels[id], b.keys[id], receiverKey).Ok? then
              var (ch, proof) := Close(mac, b.channels[id], b.keys[id], receiverKey).value;
              result == Ok(proof) && OnlyChanges(b, b', id) && b'.channels[id] == ch
            else result.Err? && b' == b && (id !in b.channels ==> result == Err(NotFound))
  {
  }

  // ---------- what every operation keeps ----------

  predicate Listed(b: Book, id: Id) {
    (id in b.order <==> id in b.channels) && (id in b.channels <==> id in b.keys)
  }

  predicate Stored(b: Book, id: Id) { id in b.channels ==> b.channels[id].id == id && ChannelOk(b.channels[id]) }

  ghost predicate BookOk(b: Book) {
    && (forall id {:trigger Listed(b, id)} :: Listed(b, id))
    && (forall id {:trigger Stored(b, id)} :: Stored(b, id))
    && (forall i, j :: 0 <= i < j < |b.order| ==> b.order[i] != b.order[j])
  }

  predicate ChannelEvolves(b: Book, b': Book, id: Id) {
    id in b.channels ==> id in b'.channels && Evolves(b.channels[id], b'.channels[id])
  }

  ghost predicate BookEvolves(b: Book, b': Book) {
    && b.order <= b'.order
    && forall id {:trigger ChannelEvolves(b, b', id)} :: ChannelEvolves(b, b', id)
  }

  lemma OpenKeeps(b: Book, minimum: real, id: Id, sender: string, receiver: string, deposit: real, key: string)
    requires BookOk(b) && id !in b.channels
    ensures var b' := OpenChannel(b, minimum, id, sender, receiver, deposit, key).0;
            BookOk(b') && BookEvolves(b, b')
  {
    var b' := OpenChannel(b, minimum, id, sender, receiver, deposit, key).0;
    assert Listed(b, id);
    forall x ensures Listed(b', x) && Stored(b', x) && ChannelEvolves(b, b', x) {
      assert Listed(b, x) && Stored(b, x);
    }
  }

  /** Replacing one channel by one it may evolve into. */
  lemma ReplaceKeeps(b: Book, id: Id, ch: Channel)
    requires BookOk(b) && id in b.channels && Evolves(b.channels[id], ch) && ChannelOk(ch)
    ensures BookOk(b.(channels := b.channels[id := ch])) && BookEvolves(b, b.(channels := b.channels[id := ch]))
  {
    var b' := b.(channels := b.channels[id := ch]);
    forall x ensures Listed(b', x) && Stored(b', x) && ChannelEvolves(b, b', x) {
      assert Listed(b, x) && Stored(b, x);
    }
  }

  lemma NothingChanges(b: Book)
    ensures BookEvolves(b, b)
  {
  }

  lemma PaymentKeeps(mac: Mac, b: Book, id: Id, amount: real)
    requires BookOk(b)
    ensures var b' := CreatePayment(mac, b, id, amount).0; BookOk(b') && BookEvolves(b, b') && OnlyChanges(b, b', id)
  {
    NothingChanges(b);
    assert Stored(b, id);
    if CreatePayment(mac, b, id, amount).1.Ok? {
      ReplaceKeeps(b, id, Pay(mac, b.channels[id], b.keys[id], amount).value.0);
    }
  }

  lemma ReceiptKeeps(mac: Mac, b: Book, u: Update)
    requires BookOk(b)
    ensures var b' := ReceivePayment(mac, b, u).0; BookOk(b') && BookEvolves(b, b') && OnlyChanges(b, b', u.id)
  {
    NothingChanges(b);
    assert Stored(b, u.id);
    if ReceivePayment(mac, b, u).1.Ok? {
      ReplaceKeeps(b, u.id, Receive(mac, b.channels[u.id], b.keys[u.id], u).value);
    }
  }

  lemma ClosingKeeps(mac: Mac, b: Book, id: Id, receiverKey: string)
    requires BookOk(b)
    ensures var b' := CloseChannel(mac, b, id, receiverKey).0;
            BookOk(b') && BookEvolves(b, b') && OnlyChanges(b, b', id)
  {
    NothingChanges(b);
    assert Stored(b, id);
    if CloseChannel(mac, b, id, receiverKey).1.Ok? {
      ReplaceKeeps(b, id, Close(mac, b.channels[id], b.keys[id], receiverKey).value.0);
    }
  }

  /** Paying, receiving and closing keep every channel within its deposit, never touch a closed channel, and change no
      channel but the one named. */
  lemma OperationsKeep(mac: Mac, b: Book, id: Id, amount: real, u: Update, receiverKey: string)
    requires BookOk(b)
    ensures var b' := CreatePayment(mac, b, id, amount).0; BookOk(b') && BookEvolves(b, b') && OnlyChanges(b, b', id)
    ensures var b' := ReceivePayment(mac, b, u).0; BookOk(b') && BookEvolves(b, b') && OnlyChanges(b, b', u.id)
    ensures var b' := CloseChannel(mac, b, id, receiverKey).0;
            BookOk(b') && BookEvolves(b, b') && OnlyChanges(b, b', id)
  {
    PaymentKeeps(mac, b, id, amount);
    ReceiptKeeps(mac, b, u);
    ClosingKeeps(mac, b, id, receiverKey);
  }

  predicate OnlyChanges(b: Book, b': Book, id: Id) {
    && b'.order == b.order && b'.keys == b.keys && b'.channels.Keys == b.channels.Keys
    && forall x :: x in b.channels && x != id ==> b'.channels[x] == b.channels[x]
  }

  lemma EvolvesTransitive(a: Book, b: Book, c: Book)
    requires BookEvolves(a, b) && BookEvolves(b, c)
    ensures BookEvolves(a, c)
  {
    forall id ensures ChannelEvolves(a, c, id) {
      assert ChannelEvolves(a, b, id) && ChannelEvolves(b, c, id);
    }
  }
}
