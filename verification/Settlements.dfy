/** Paying revenue shares through channels, and keeping the accounts (revenue/settlement.py). */
module Settlements {
  import opened Options
  import opened Bytes
  import opened Signing
  import opened Channels
  import opened Shares
  import opened Sums

  datatype Settlement = Settlement(id: string, execution: string, shares: seq<Share>, fee: Fee, total: real)

  /** `book` is that of the channel manager, if there is one; the settlements stand in the order they were made. */
  datatype Engine = Engine(book: Option<Book>, earnings: map<string, real>, settlements: seq<Settlement>)

  /** An exception of the manager that the engine does not catch ends the settlement where it stands. */
  datatype Failure = BelowThreshold | Uncaught

  function Earned(earnings: map<string, real>, participant: string): real {
    if participant in earnings then earnings[participant] else 0.0
  }

  // ---------- paying one share ----------

  predicate HasRoom(ch: Channel, participant: string, amount: real) {
    ch.isOpen && ch.receiver == participant && ch.deposit - ch.spent >= amount
  }

  /** Tries the channels in order; whether one of them paid, or `None` for an uncaught exception. */
  function FirstFit(mac: Mac, b: Book, channels: seq<Channel>, participant: string, amount: real)
    : (Book, Option<bool>)
  {
    if channels == [] then (b, Some(false))
    else if channels[0].receiver == participant && channels[0].deposit - channels[0].spent >= amount then
      match CreatePayment(mac, b, channels[0].id, amount)
      case (b', Ok(_)) => (b', Some(true))
      case (b', Err(CannotPack)) => (b', None)
      case (b', Err(_)) => FirstFit(mac, b', channels[1..], participant, amount)
    else FirstFit(mac, b, channels[1..], participant, amount)
  }

  function TryPayment(mac: Mac, book: Option<Book>, s: Share): (Option<Book>, Option<bool>) {
    if book.None? || s.amount <= 0.0 then (book, Some(true))
    else
      var b := book.value;
      var (b', paid) := FirstFit(mac, b, ChannelsFor(b, s.participant, b.order), s.participant, s.amount);
      (Some(b'), paid)
  }

  // ---------- settling ----------

  /** Part of a settlement: the shares done with, each marked as paid or not. */
  datatype Progress = Progress(book: Option<Book>, earnings: map<string, real>, done: seq<Share>, raised: bool)

  function SettleOne(mac: Mac, p: Progress, s: Share): Progress {
    var (book, paid) := TryPayment(mac, p.book, s);
    if paid.None? then p.(book := book, raised := true)
    else Progress(book, p.earnings[s.participant := Earned(p.earnings, s.participant) + s.amount],
                  p.done + [s.(settled := paid.value)], false)
  }

  function SettleAll(mac: Mac, start: Progress, shares: seq<Share>): Progress {
    if shares == [] then start
    else
      var p := SettleAll(mac, start, shares[..|shares| - 1]);
      if p.raised then p else SettleOne(mac, p, shares[|shares| - 1])
  }

  function Begin(e: Engine): Progress { Progress(e.book, e.earnings, [], false) }

  /** `id` is the identifier drawn for the settlement. */
  function Settle(mac: Mac, e: Engine, minimum: real, id: string, execution: string, shares: seq<Share>, fee: Fee,
                  total: real): (Engine, Result<Settlement, Failure>)
  {
    if total < minimum then (e, Err(BelowThreshold))
    else
      var p := SettleAll(mac, Begin(e), shares);
      var e' := e.(book := p.book, earnings := p.earnings);
      if p.raised then (e', Err(Uncaught))
      else
        var s := Settlement(id, execution, p.done, fee, total);
        (e'.(settlements := e.settlements + [s]), Ok(s))
  }

  // ---------- one payment ----------

  /** Two books that differ in one payment of `amount` on channel `id`. */
  predicate PaysOn(b: Book, b': Book, id: Id, amount: real) {
    && id in b.channels && id in b'.channels && OnlyChanges(b, b', id)
    && b.channels[id].isOpen && b'.channels[id].spent == b.channels[id].spent + amount
  }

  predicate CanPay(b: Book, participant: string, amount: real, id: Id) {
    id in b.channels && HasRoom(b.channels[id], participant, amount)
  }

  /** The channels still to be tried are as the book has them. */
  ghost predicate AreCurrent(b: Book, channels: seq<Channel>) {
    forall i :: 0 <= i < |channels| ==>
      channels[i].isOpen && channels[i].id in b.channels && b.channels[channels[i].id] == channels[i]
  }

  ghost predicate FitAmong(channels: seq<Channel>, participant: string, amount: real) {
    exists i :: 0 <= i < |channels| && HasRoom(channels[i], participant, amount)
  }

  /** Channel `i` has room and none before it does. */
  predicate FirstWithRoom(channels: seq<Channel>, participant: string, amount: real, i: nat) {
    && i < |channels| && HasRoom(channels[i], participant, amount)
    && forall j :: 0 <= j < i ==> !HasRoom(channels[j], participant, amount)
  }

  /** Some payment was made on the first channel with room. */
  ghost predicate PaidFirst(b: Book, b': Book, channels: seq<Channel>, participant: string, amount: real) {
    exists i: nat :: FirstWithRoom(channels, participant, amount, i) && PaysOn(b, b', channels[i].id, amount)
  }

  /** First fit pays on the first channel that has room, if there is one; otherwise it changes nothing. */
  lemma {:induction false} FirstFitPays(mac: Mac, b: Book, channels: seq<Channel>, participant: string, amount: real)
    requires BookOk(b) && AreCurrent(b, channels) && amount > 0.0
    ensures var (b', paid) := FirstFit(mac, b, channels, participant, amount);
            && (paid == Some(true) ==> PaidFirst(b, b', channels, participant, amount))
            && (paid != Some(true) ==> b' == b)
            && (paid.Some? ==> (paid.value <==> FitAmong(channels, participant, amount)))
            && (paid.None? ==>
                  exists id :: CanPay(b, participant, amount, id) && b.channels[id].nonce >= TWO_64 - 1)
            && BookOk(b') && BookEvolves(b, b')
  {
    NothingChanges(b);
    if channels != [] {
      var ch := channels[0];
      if HasRoom(ch, participant, amount) {
        FirstPays(mac, b, channels, participant, amount);
      } else {
        FirstFitPays(mac, b, channels[1..], participant, amount);
        FitInRest(channels, participant, amount);
        var b' := FirstFit(mac, b, channels, participant, amount).0;
        if PaidFirst(b, b', channels[1..], participant, amount) {
          var i: nat :| FirstWithRoom(channels[1..], participant, amount, i)
                        && PaysOn(b, b', channels[1..][i].id, amount);
          LaterWithRoom(channels, participant, amount, i);
        }
      }
    }
  }

  lemma LaterWithRoom(channels: seq<Channel>, participant: string, amount: real, i: nat)
    requires channels != [] && !HasRoom(channels[0], participant, amount)
    requires FirstWithRoom(channels[1..], participant, amount, i)
    ensures FirstWithRoom(channels, participant, amount, i + 1)
  {
    forall j | 0 <= j < i + 1 ensures !HasRoom(channels[j], participant, amount) {
      assert j > 0 ==> channels[j] == channels[1..][j - 1];
    }
  }

  lemma FirstPays(mac: Mac, b: Book, channels: seq<Channel>, participant: string, amount: real)
    requires BookOk(b) && AreCurrent(b, channels) && amount > 0.0
    requires channels != [] && HasRoom(channels[0], participant, amount)
    ensures var (b', paid) := FirstFit(mac, b, channels, participant, amount);
            && (paid == Some(true) ==> PaidFirst(b, b', channels, participant, amount))
            && (paid != Some(true) ==> b' == b && paid.None?)
            && (paid.None? ==>
                  exists id :: CanPay(b, participant, amount, id) && b.channels[id].nonce >= TWO_64 - 1)
            && BookOk(b') && BookEvolves(b, b')
  {
    var ch := channels[0];
    assert Listed(b, ch.id) && Stored(b, ch.id);
    NothingChanges(b);
    PaymentKeeps(mac, b, ch.id, amount);
    assert CanPay(b, participant, amount, ch.id);
    if CreatePayment(mac, b, ch.id, amount).1.Ok? {
      assert PaysOn(b, CreatePayment(mac, b, ch.id, amount).0, ch.id, amount);
      assert FirstWithRoom(channels, participant, amount, 0);
    }
  }

  lemma FitInRest(channels: seq<Channel>, participant: string, amount: real)
    requires channels != [] && !HasRoom(channels[0], participant, amount)
    ensures FitAmong(channels, participant, amount) <==> FitAmong(channels[1..], participant, amount)
  {
  }

  lemma ListedChannelsFit(b: Book, participant: string, amount: real)
    requires BookOk(b)
    ensures AreCurrent(b, ChannelsFor(b, participant, b.order))
    ensures FitAmong(ChannelsFor(b, participant, b.order), participant, amount) <==>
            exists id :: CanPay(b, participant, amount, id)
  {
    var cs := ChannelsFor(b, participant, b.order);
    forall i | 0 <= i < |cs| ensures cs[i].isOpen && cs[i].id in b.channels && b.channels[cs[i].id] == cs[i] {
      assert cs[i] in cs;
      var k :| 0 <= k < |b.order| && Involves(b, participant, b.order[k]) && b.channels[b.order[k]] == cs[i];
      assert Stored(b, b.order[k]);
    }
    if id :| CanPay(b, participant, amount, id) {
      assert Listed(b, id);
      var k :| 0 <= k < |b.order| && b.order[k] == id;
      assert Involves(b, participant, b.order[k]) && b.channels[id] in cs;
      var j :| 0 <= j < |cs| && cs[j] == b.channels[id];
      assert HasRoom(cs[j], participant, amount);
    }
    if i :| 0 <= i < |cs| && HasRoom(cs[i], participant, amount) {
      assert CanPay(b, participant, amount, cs[i].id);
    }
  }

  /** The `k`-th channel that was opened can pay and none opened before it can. */
  predicate FirstOpened(b: Book, participant: string, amount: real, order: seq<Id>, k: nat) {
    && k < |order| && CanPay(b, participant, amount, order[k])
    && forall j :: 0 <= j < k ==> !CanPay(b, participant, amount, order[j])
  }

  lemma {:induction false} FirstListed(b: Book, participant: string, amount: real, order: seq<Id>, i: nat)
    returns (k: nat)
    requires BookOk(b) && FirstWithRoom(ChannelsFor(b, participant, order), participant, amount, i)
    ensures FirstOpened(b, participant, amount, order, k)
    ensures order[k] == ChannelsFor(b, participant, order)[i].id
    decreases |order|
  {
    var cs := ChannelsFor(b, participant, order);
    var rest := ChannelsFor(b, participant, order[1..]);
    assert Stored(b, order[0]);
    if Involves(b, participant, order[0]) && i == 0 {
      return 0;
    }
    var i' := if Involves(b, participant, order[0]) then i - 1 else i;
    assert cs == if Involves(b, participant, order[0]) then [b.channels[order[0]]] + rest else rest;
    assert !CanPay(b, participant, amount, order[0]) by {
      assert Involves(b, participant, order[0]) ==> cs[0] == b.channels[order[0]];
    }
    assert FirstWithRoom(rest, participant, amount, i') by {
      forall j | 0 <= j < i' ensures !HasRoom(rest[j], participant, amount) {
        assert rest[j] == cs[j + (i - i')];
      }
    }
    k := FirstListed(b, participant, amount, order[1..], i');
    FirstOpenedLater(b, participant, amount, order, k);
    k := k + 1;
  }

  lemma FirstOpenedLater(b: Book, participant: string, amount: real, order: seq<Id>, k: nat)
    requires order != [] && !CanPay(b, participant, amount, order[0])
    requires FirstOpened(b, participant, amount, order[1..], k)
    ensures FirstOpened(b, participant, amount, order, k + 1)
  {
    forall j | 0 <= j < k + 1 ensures !CanPay(b, participant, amount, order[j]) {
      assert j > 0 ==> order[j] == order[1..][j - 1];
    }
  }

  /** What paying one share does: a positive share is paid exactly when one open channel to the participant has room for
      all of it, and then on the first such channel in the order they were opened; otherwise nothing changes, and where
      there is nothing to pay the share counts as paid. */
  lemma PaymentIsFirstFit(mac: Mac, b: Book, s: Share)
    requires BookOk(b)
    ensures var (book, paid) := TryPayment(mac, Some(b), s);
            && book.Some? && BookOk(book.value) && BookEvolves(b, book.value)
            && (s.amount > 0.0 && paid.Some? ==> (paid.value <==> exists id :: CanPay(b, s.participant, s.amount, id)))
            && (s.amount > 0.0 && paid == Some(true) ==>
                  exists k: nat :: && FirstOpened(b, s.participant, s.amount, b.order, k)
                                   && PaysOn(b, book.value, b.order[k], s.amount))
            && (s.amount <= 0.0 ==> paid == Some(true))
            && (s.amount <= 0.0 || paid != Some(true) ==> book.value == b)
            && (paid.None? ==>
                  exists id :: CanPay(b, s.participant, s.amount, id) && b.channels[id].nonce >= TWO_64 - 1)
  {
    NothingChanges(b);
    if s.amount > 0.0 {
      var cs := ChannelsFor(b, s.participant, b.order);
      ListedChannelsFit(b, s.participant, s.amount);
      FirstFitPays(mac, b, cs, s.participant, s.amount);
      var (b', paid) := FirstFit(mac, b, cs, s.participant, s.amount);
      if paid == Some(true) {
        var i: nat :| FirstWithRoom(cs, s.participant, s.amount, i) && PaysOn(b, b', cs[i].id, s.amount);
        var k := FirstListed(b, s.participant, s.amount, b.order, i);
      }
    }
  }

  /** Right after its channel was opened in an empty book, a receiver is paid whatever fits the deposit. */
  lemma OpenedChannelPays(mac: Mac, minimum: real, id: Id, sender: string, receiver: string, deposit: real, key: string,
                          s: Share)
    requires OpenChannel(EMPTY, minimum, id, sender, receiver, deposit, key).1.Ok?
    requires s.participant == receiver && 0.0 < s.amount <= deposit
    ensures var b := OpenChannel(EMPTY, minimum, id, sender, receiver, deposit, key).0;
            var (book, paid) := TryPayment(mac, Some(b), s);
            paid == Some(true) && book.Some? && PaysOn(b, book.value, id, s.amount)
            && book.value.channels[id].spent == s.amount
  {
    var b := OpenChannel(EMPTY, minimum, id, sender, receiver, deposit, key).0;
    OpenKeeps(EMPTY, minimum, id, sender, receiver, deposit, key);
    OnlyChannelPays(mac, b, id, s);
  }

  lemma OnlyChannelPays(mac: Mac, b: Book, id: Id, s: Share)
    requires BookOk(b) && b.order == [id] && b.channels.Keys == {id} && 0.0 < s.amount
    requires CanPay(b, s.participant, s.amount, id) && b.channels[id].nonce < TWO_64 - 1
    ensures var (book, paid) := TryPayment(mac, Some(b), s);
            paid == Some(true) && book.Some? && PaysOn(b, book.value, id, s.amount)
  {
    PaymentIsFirstFit(mac, b, s);
    var (book, paid) := TryPayment(mac, Some(b), s);
    assert paid.Some?;
    var k: nat :| FirstOpened(b, s.participant, s.amount, b.order, k) && PaysOn(b, book.value, b.order[k], s.amount);
    assert k == 0;
  }

  /** A settlement needs the minimum; it records what it was given, with every share marked as paid or not, after all
      earlier ones. */
  lemma {:induction false} SettleOutcome(mac: Mac, e: Engine, minimum: real, id: string, execution: string,
                                         shares: seq<Share>, fee: Fee, total: real)
    ensures var (e', result) := Settle(mac, e, minimum, id, execution, shares, fee, total);
            && (result == Err(BelowThreshold) <==> total < minimum)
            && (total < minimum ==> e' == e)
            && (result.Err? ==> e'.settlements == e.settlements)
            && (result.Ok? ==>
                  var s := result.value;
                  && e'.settlements == e.settlements + [s]
                  && s.id == id && s.execution == execution && s.fee == fee && s.total == total
                  && |s.shares| == |shares| && Marked(shares, s.shares))
  {
    SettlingMarks(mac, Begin(e), shares);
  }

  /** Without a channel manager a settlement above the minimum always succeeds, and every share counts as settled. */
  lemma {:induction false} BookkeepingSettles(mac: Mac, e: Engine, minimum: real, id: string, execution: string,
                                              shares: seq<Share>, fee: Fee, total: real)
    requires e.book.None? && total >= minimum
    ensures var (e', result) := Settle(mac, e, minimum, id, execution, shares, fee, total);
            result.Ok? && e'.book.None? && forall i :: 0 <= i < |result.value.shares| ==> result.value.shares[i].settled
  {
    AllSettledWithoutManager(mac, Begin(e), shares);
  }

  lemma {:induction false} AllSettledWithoutManager(mac: Mac, start: Progress, shares: seq<Share>)
    requires start.book.None? && !start.raised && start.done == []
    ensures var p := SettleAll(mac, start, shares);
            p.book.None? && !p.raised && forall i :: 0 <= i < |p.done| ==> p.done[i].settled
  {
    if shares != [] {
      AllSettledWithoutManager(mac, start, shares[..|shares| - 1]);
    }
  }

  // ---------- conservation ----------

  function SpentOf(b: Book, id: Id): real { if id in b.channels then b.channels[id].spent else 0.0 }

  function SpentBy(b: Book): Id -> real { (id: Id) => SpentOf(b, id) }

  /** All that was ever paid through the channels. */
  function TotalSpent(b: Book): real { SumOf(SpentBy(b), b.order) }

  /** What a share cost the channels. */
  function PaidAmount(s: Share): real { if s.settled && s.amount > 0.0 then s.amount else 0.0 }

  lemma PaymentAddsUp(b: Book, b': Book, id: Id, amount: real)
    requires BookOk(b) && PaysOn(b, b', id, amount)
    ensures TotalSpent(b') == TotalSpent(b) + amount
  {
    assert Listed(b, id);
    var k :| 0 <= k < |b.order| && b.order[k] == id;
    forall i | 0 <= i < |b.order| && i != k ensures SpentBy(b')(b.order[i]) == SpentBy(b)(b.order[i]) {
      assert Listed(b, b.order[i]);
    }
    SumChanges(SpentBy(b), SpentBy(b'), b.order, k, amount);
  }

  lemma SettleOneAddsUp(mac: Mac, p: Progress, s: Share)
    requires p.book.Some? && BookOk(p.book.value) && !p.raised
    ensures var p' := SettleOne(mac, p, s);
            && p'.book.Some? && BookOk(p'.book.value) && BookEvolves(p.book.value, p'.book.value)
            && TotalSpent(p'.book.value) - SumOf(PaidAmount, p'.done)
               == TotalSpent(p.book.value) - SumOf(PaidAmount, p.done)
  {
    var b := p.book.value;
    PaymentIsFirstFit(mac, b, s);
    var (book, paid) := TryPayment(mac, p.book, s);
    if paid.Some? {
      SumSnoc(PaidAmount, p.done, s.(settled := paid.value));
    }
    if s.amount > 0.0 && paid == Some(true) {
      var k: nat :| && FirstOpened(b, s.participant, s.amount, b.order, k)
                    && PaysOn(b, book.value, b.order[k], s.amount);
      PaymentAddsUp(b, book.value, b.order[k], s.amount);
    }
  }

  /** The shares done with are the first ones given, each marked. */
  predicate Marked(shares: seq<Share>, done: seq<Share>) {
    |done| <= |shares| && forall i :: 0 <= i < |done| ==> done[i] == shares[i].(settled := done[i].settled)
  }

  lemma {:induction false} SettlingMarks(mac: Mac, start: Progress, shares: seq<Share>)
    requires start.done == [] && !start.raised
    ensures var p := SettleAll(mac, start, shares); Marked(shares, p.done) && (!p.raised ==> |p.done| == |shares|)
  {
    if shares != [] {
      SettlingMarks(mac, start, shares[..|shares| - 1]);
    }
  }

  /** A settlement, even one that is cut short, raises the channels' total spend by exactly the positive shares it marks
      as settled. */
  lemma {:induction false} SettlingConserves(mac: Mac, start: Progress, shares: seq<Share>)
    requires start.book.Some? && BookOk(start.book.value) && start.done == [] && !start.raised
    ensures var p := SettleAll(mac, start, shares);
            && p.book.Some? && BookOk(p.book.value) && BookEvolves(start.book.value, p.book.value)
            && TotalSpent(p.book.value) == TotalSpent(start.book.value) + SumOf(PaidAmount, p.done)
  {
    if shares == [] {
      NothingChanges(start.book.value);
    } else {
      var last := shares[|shares| - 1];
      SettlingConserves(mac, start, shares[..|shares| - 1]);
      var p := SettleAll(mac, start, shares[..|shares| - 1]);
      if !p.raised {
        SettleOneAddsUp(mac, p, last);
        EvolvesTransitive(start.book.value, p.book.value, SettleOne(mac, p, last).book.value);
      }
    }
  }

  // ---------- whole runs ----------

  /** What may be asked of the manager and of the engine. */
  datatype Operation =
    | Open(id: Id, sender: string, receiver: string, deposit: real, key: string)
    | PayDirectly(id: Id, amount: real)
    | Take(update: Update)
    | CloseOne(id: Id, receiverKey: string)
    | SettleShares(settlementId: string, execution: string, shares: seq<Share>, fee: Fee, total: real)

  datatype Limits = Limits(minimumDeposit: real, minimumSettlement: real)

  function Apply(mac: Mac, limits: Limits, e: Engine, op: Operation): Engine {
    if op.SettleShares? then
      Settle(mac, e, limits.minimumSettlement, op.settlementId, op.execution, op.shares, op.fee, op.total).0
    else if e.book.None? then e
    else e.(book := Some(ApplyToBook(mac, limits, e.book.value, op)))
  }

  function ApplyToBook(mac: Mac, limits: Limits, b: Book, op: Operation): Book {
    match op
    case Open(id, sender, receiver, deposit, key) =>
      if id in b.channels then b else OpenChannel(b, limits.minimumDeposit, id, sender, receiver, deposit, key).0
    case PayDirectly(id, amount) => CreatePayment(mac, b, id, amount).0
    case Take(u) => ReceivePayment(mac, b, u).0
    case CloseOne(id, receiverKey) => CloseChannel(mac, b, id, receiverKey).0
    case SettleShares(_, _, _, _, _) => b
  }

  function Run(mac: Mac, limits: Limits, start: Engine, ops: seq<Operation>): Engine {
    if ops == [] then start else Apply(mac, limits, Run(mac, limits, start, ops[..|ops| - 1]), ops[|ops| - 1])
  }

  ghost predicate EngineOk(e: Engine) { e.book.Some? ==> BookOk(e.book.value) }

  ghost predicate EngineEvolves(e: Engine, e': Engine) {
    && e.book.Some? == e'.book.Some?
    && (e.book.Some? ==> BookEvolves(e.book.value, e'.book.value))
    && e.settlements <= e'.settlements
  }

  lemma {:induction false} NoManagerNoBook(mac: Mac, start: Progress, shares: seq<Share>)
    requires start.book.None?
    ensures SettleAll(mac, start, shares).book.None?
  {
    if shares != [] {
      NoManagerNoBook(mac, start, shares[..|shares| - 1]);
    }
  }

  lemma ApplyKeeps(mac: Mac, limits: Limits, e: Engine, op: Operation)
    requires EngineOk(e)
    ensures EngineOk(Apply(mac, limits, e, op)) && EngineEvolves(e, Apply(mac, limits, e, op))
  {
    if e.book.Some? {
      var b := e.book.value;
      NothingChanges(b);
      match op
      case Open(id, sender, receiver, deposit, key) =>
        if id !in b.channels {
          OpenKeeps(b, limits.minimumDeposit, id, sender, receiver, deposit, key);
        }
      case PayDirectly(id, amount) => PaymentKeeps(mac, b, id, amount);
      case Take(u) => ReceiptKeeps(mac, b, u);
      case CloseOne(id, receiverKey) => ClosingKeeps(mac, b, id, receiverKey);
      case SettleShares(_, _, shares, _, _) => SettlingConserves(mac, Begin(e), shares);
    } else if op.SettleShares? {
      NoManagerNoBook(mac, Begin(e), op.shares);
    }
  }

  /** However opening, paying, receiving, closing and settling alternate, no channel is ever overspent, a closed channel
      never changes again, spending only grows, and settlements are only added. */
  lemma {:induction false} RunsKeepBooks(mac: Mac, limits: Limits, start: Engine, ops: seq<Operation>, n: nat)
    requires EngineOk(start) && n <= |ops|
    ensures EngineOk(Run(mac, limits, start, ops))
    ensures EngineEvolves(Run(mac, limits, start, ops[..n]), Run(mac, limits, start, ops))
    decreases |ops|
  {
    if n == |ops| {
      assert ops[..n] == ops;
      var e := Run(mac, limits, start, ops);
      if e.book.Some? {
        NothingChanges(e.book.value);
      }
      if ops != [] {
        RunsKeepBooks(mac, limits, start, ops[..|ops| - 1], |ops| - 1);
        ApplyKeeps(mac, limits, Run(mac, limits, start, ops[..|ops| - 1]), ops[|ops| - 1]);
      }
    } else {
      var before := ops[..|ops| - 1];
      RunsKeepBooks(mac, limits, start, before, n);
      assert before[..n] == ops[..n];
      ApplyKeeps(mac, limits, Run(mac, limits, start, before), ops[|ops| - 1]);
      EngineEvolvesTransitive(Run(mac, limits, start, ops[..n]), Run(mac, limits, start, before),
                              Run(mac, limits, start, ops));
    }
  }

  lemma EngineEvolvesTransitive(a: Engine, b: Engine, c: Engine)
    requires EngineEvolves(a, b) && EngineEvolves(b, c)
    ensures EngineEvolves(a, c)
  {
    if a.book.Some? {
      EvolvesTransitive(a.book.value, b.book.value, c.book.value);
    }
  }
}
