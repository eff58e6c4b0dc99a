/** A payer and a payee who each keep a copy of one channel, and a network between them (channels/manager.py). */
module Replicas {
  import opened Options
  import opened Bytes
  import opened Signing
  import opened Channels

  /** `spent` lists the payer's cumulative amounts from the common starting point on; `sent` and `accepted` are the
      updates the payer issued and those the payee took. */
  datatype System = System(base: int, payer: Channel, payee: Channel, spent: seq<real>, sent: seq<Update>,
                           accepted: seq<Update>)

  datatype Event =
    | PayerPays(amount: real)
    | Deliver(update: Update)   // anything the network may hand over, any number of times
    | PayerCloses(receiverKey: string)
    | PayeeCloses(receiverKey: string)

  function Start(ch: Channel): System { System(ch.nonce, ch, ch, [ch.spent], [], []) }

  function Step(mac: Mac, key: string, s: System, e: Event): System {
    match e
    case PayerPays(amount) =>
      (match Pay(mac, s.payer, key, amount)
       case Err(_) => s
       case Ok((ch, u)) => s.(payer := ch, spent := s.spent + [ch.spent], sent := s.sent + [u]))
    case Deliver(u) =>
      if u.id != s.payee.id then s
      else (match Receive(mac, s.payee, key, u)
            case Err(_) => s
            case Ok(ch) => s.(payee := ch, accepted := s.accepted + [u]))
    case PayerCloses(receiverKey) =>
      (match Close(mac, s.payer, key, receiverKey)
       case Err(_) => s
       case Ok((ch, _)) => s.(payer := ch))
    case PayeeCloses(receiverKey) =>
      (match Close(mac, s.payee, key, receiverKey)
       case Err(_) => s
       case Ok((ch, _)) => s.(payee := ch))
  }

  function Run(mac: Mac, key: string, ch: Channel, events: seq<Event>): System {
    if events == [] then Start(ch)
    else Step(mac, key, Run(mac, key, ch, events[..|events| - 1]), events[|events| - 1])
  }

  // ---------- what the network may do ----------

  function MessageOf(u: Update): Option<seq<byte>> { BuildMessage(u.id, u.amount, u.nonce) }

  /** What makes signatures worth having: one that verifies covers a message that the payer signed. */
  predicate Unforged(mac: Mac, key: string, s: System, e: Event) {
    && e.Deliver?
    && VerifySignature(mac, e.update.id, e.update.amount, e.update.nonce, e.update.signature, key) == Some(true)
    ==> exists k :: 0 <= k < |s.sent| && MessageOf(e.update) == MessageOf(s.sent[k])
  }

  ghost predicate UnforgedRun(mac: Mac, key: string, ch: Channel, events: seq<Event>) {
    forall n {:trigger events[n]} :: 0 <= n < |events| ==> Unforged(mac, key, Run(mac, key, ch, events[..n]), events[n])
  }

  /** A network that loses, repeats and reorders, but does not alter. */
  ghost predicate HonestRun(mac: Mac, key: string, ch: Channel, events: seq<Event>) {
    forall n {:trigger events[n]} :: 0 <= n < |events| && events[n].Deliver? ==>
      events[n].update in Run(mac, key, ch, events[..n]).sent
  }

  // ---------- the invariant ----------

  predicate Issued(mac: Mac, key: string, s: System, k: nat) {
    && k < |s.sent| && k + 1 < |s.spent|
    && s.sent[k].id == s.payer.id && s.sent[k].amount == s.spent[k + 1] && s.sent[k].nonce == s.base + k + 1
    && 0 <= s.sent[k].nonce < TWO_64
    && SignPayment(mac, s.sent[k].id, s.sent[k].amount, s.sent[k].nonce, key) == Some(s.sent[k].signature)
  }

  /** The payer's copy stands at the end of its own list, which only grows. */
  ghost predicate PayerOk(mac: Mac, key: string, s: System) {
    && ChannelOk(s.payer) && 0 <= s.base
    && s.spent != [] && s.payer.nonce == s.base + |s.spent| - 1 && s.payer.spent == s.spent[|s.spent| - 1]
    && 0.0 <= s.spent[0] && Growing(s.spent)
    && |s.sent| == |s.spent| - 1
    && forall k {:trigger Issued(mac, key, s, k)} :: 0 <= k < |s.sent| ==> Issued(mac, key, s, k)
  }

  predicate Growing(spent: seq<real>) {
    forall i, j :: 0 <= i < j < |spent| ==> spent[i] < spent[j]
  }

  /** What was accepted in this place is what was signed in this place. */
  predicate Matched(s: System, j: nat) {
    && j < |s.accepted| && j < |s.sent|
    && s.accepted[j].nonce == s.base + j + 1 && MessageOf(s.accepted[j]) == MessageOf(s.sent[j])
  }

  /** Equal as far as a signature can tell. */
  predicate SignedAlike(a: real, b: real) { Wei(a) % TWO_256 == Wei(b) % TWO_256 }

  /** The payee's copy stands at some place of that list, up to what the signature does not cover. */
  predicate PayeeOk(s: System) {
    && ChannelOk(s.payee) && s.payee.id == s.payer.id && s.payee.deposit == s.payer.deposit
    && 0 <= s.payee.nonce - s.base < |s.spent|
    && SignedAlike(s.payee.spent, s.spent[s.payee.nonce - s.base])
    && |s.accepted| == s.payee.nonce - s.base && |s.accepted| <= |s.sent|
    && forall j {:trigger Matched(s, j)} :: 0 <= j < |s.accepted| ==> Matched(s, j)
  }

  lemma StartOk(mac: Mac, key: string, ch: Channel)
    requires ChannelOk(ch)
    ensures PayerOk(mac, key, Start(ch)) && PayeeOk(Start(ch))
  {
  }

  lemma PaymentKeepsPayer(mac: Mac, key: string, s: System, amount: real)
    requires PayerOk(mac, key, s) && Pay(mac, s.payer, key, amount).Ok?
    ensures PayerOk(mac, key, Step(mac, key, s, PayerPays(amount)))
  {
    var s' := Step(mac, key, s, PayerPays(amount));
    forall k | 0 <= k < |s'.sent| ensures Issued(mac, key, s', k) {
      assert k < |s.sent| ==> Issued(mac, key, s, k);
    }
  }

  lemma PaymentKeepsPayee(mac: Mac, key: string, s: System, amount: real)
    requires PayeeOk(s) && Pay(mac, s.payer, key, amount).Ok?
    ensures PayeeOk(Step(mac, key, s, PayerPays(amount)))
  {
    var s' := Step(mac, key, s, PayerPays(amount));
    forall j | 0 <= j < |s'.accepted| ensures Matched(s', j) {
      assert Matched(s, j);
    }
  }

  lemma PayerStep(mac: Mac, key: string, s: System, amount: real)
    requires PayerOk(mac, key, s) && PayeeOk(s)
    ensures var s' := Step(mac, key, s, PayerPays(amount)); PayerOk(mac, key, s') && PayeeOk(s')
  {
    if Pay(mac, s.payer, key, amount).Ok? {
      PaymentKeepsPayer(mac, key, s, amount);
      PaymentKeepsPayee(mac, key, s, amount);
    }
  }

  /** An update that passes the payee's checks is the next one of the payer's list, as far as it is signed. */
  lemma AcceptedIsNext(mac: Mac, key: string, s: System, u: Update)
    requires PayerOk(mac, key, s) && PayeeOk(s) && Unforged(mac, key, s, Deliver(u))
    requires u.id == s.payee.id && Receive(mac, s.payee, key, u).Ok?
    ensures var k := s.payee.nonce - s.base;
            && k < |s.sent| && k + 1 < |s.spent| && MessageOf(u) == MessageOf(s.sent[k])
            && Wei(u.amount) % TWO_256 == Wei(s.spent[k + 1]) % TWO_256
  {
    var k :| 0 <= k < |s.sent| && MessageOf(u) == MessageOf(s.sent[k]);
    var v := s.sent[k];
    assert Issued(mac, key, s, k);
    MessageDetermines(u.id, u.amount, u.nonce, v.id, v.amount, v.nonce);
  }

  lemma AcceptedKeepsPayee(mac: Mac, key: string, s: System, u: Update)
    requires PayerOk(mac, key, s) && PayeeOk(s) && Unforged(mac, key, s, Deliver(u))
    requires u.id == s.payee.id && Receive(mac, s.payee, key, u).Ok?
    ensures PayeeOk(Step(mac, key, s, Deliver(u)))
  {
    var s' := Step(mac, key, s, Deliver(u));
    AcceptedIsNext(mac, key, s, u);
    forall j | 0 <= j < |s'.accepted| ensures Matched(s', j) {
      assert j < |s.accepted| ==> Matched(s, j);
    }
  }

  lemma DeliverStep(mac: Mac, key: string, s: System, u: Update)
    requires PayerOk(mac, key, s) && PayeeOk(s) && Unforged(mac, key, s, Deliver(u))
    ensures var s' := Step(mac, key, s, Deliver(u)); PayerOk(mac, key, s') && PayeeOk(s')
  {
    PayerUndisturbed(mac, key, s, Step(mac, key, s, Deliver(u)));
    if u.id == s.payee.id && Receive(mac, s.payee, key, u).Ok? {
      AcceptedKeepsPayee(mac, key, s, u);
    }
  }

  /** The payer's half of the invariant is about its own copy and lists, and not about whether it is open. */
  lemma PayerUndisturbed(mac: Mac, key: string, s: System, s': System)
    requires PayerOk(mac, key, s) && s'.base == s.base && s'.spent == s.spent && s'.sent == s.sent
    requires s'.payer == s.payer.(isOpen := s'.payer.isOpen)
    ensures PayerOk(mac, key, s')
  {
    forall k | 0 <= k < |s'.sent| ensures Issued(mac, key, s', k) {
      assert Issued(mac, key, s, k);
    }
  }

  lemma PayeeUndisturbed(s: System, s': System)
    requires PayeeOk(s) && s'.base == s.base && s'.spent == s.spent && s'.sent == s.sent && s'.accepted == s.accepted
    requires s'.payer == s.payer.(isOpen := s'.payer.isOpen) && s'.payee == s.payee.(isOpen := s'.payee.isOpen)
    ensures PayeeOk(s')
  {
    forall j | 0 <= j < |s'.accepted| ensures Matched(s', j) {
      assert Matched(s, j);
    }
  }

  lemma CloseStep(mac: Mac, key: string, s: System, e: Event)
    requires PayerOk(mac, key, s) && PayeeOk(s) && (e.PayerCloses? || e.PayeeCloses?)
    ensures var s' := Step(mac, key, s, e); PayerOk(mac, key, s') && PayeeOk(s')
  {
    PayerUndisturbed(mac, key, s, Step(mac, key, s, e));
    PayeeUndisturbed(s, Step(mac, key, s, e));
  }

  lemma StepKeeps(mac: Mac, key: string, s: System, e: Event)
    requires PayerOk(mac, key, s) && PayeeOk(s) && Unforged(mac, key, s, e)
    ensures var s' := Step(mac, key, s, e); PayerOk(mac, key, s') && PayeeOk(s')
  {
    match e
    case PayerPays(amount) => PayerStep(mac, key, s, amount);
    case Deliver(u) => DeliverStep(mac, key, s, u);
    case _ => CloseStep(mac, key, s, e);
  }

  lemma TermsStay(mac: Mac, key: string, s: System, e: Event)
    ensures var s' := Step(mac, key, s, e); s'.payer.deposit == s.payer.deposit && s'.base == s.base
  {
  }

  lemma {:induction false} RunKeeps(mac: Mac, key: string, ch: Channel, events: seq<Event>)
    requires ChannelOk(ch) && UnforgedRun(mac, key, ch, events)
    ensures var s := Run(mac, key, ch, events); PayerOk(mac, key, s) && PayeeOk(s)
    ensures Run(mac, key, ch, events).payer.deposit == ch.deposit && Run(mac, key, ch, events).base == ch.nonce
    decreases |events|
  {
    if events == [] {
      StartOk(mac, key, ch);
    } else {
      var before, e := events[..|events| - 1], events[|events| - 1];
      EarlierRunUnforged(mac, key, ch, events);
      RunKeeps(mac, key, ch, before);
      StepKeeps(mac, key, Run(mac, key, ch, before), e);
      TermsStay(mac, key, Run(mac, key, ch, before), e);
    }
  }

  lemma EarlierRunUnforged(mac: Mac, key: string, ch: Channel, events: seq<Event>)
    requires events != [] && UnforgedRun(mac, key, ch, events)
    ensures var before := events[..|events| - 1];
            UnforgedRun(mac, key, ch, before) && Unforged(mac, key, Run(mac, key, ch, before), events[|events| - 1])
  {
    var before := events[..|events| - 1];
    forall n | 0 <= n < |before| ensures Unforged(mac, key, Run(mac, key, ch, before[..n]), before[n]) {
      assert before[..n] == events[..n] && before[n] == events[n];
    }
    assert Unforged(mac, key, Run(mac, key, ch, events[..|events| - 1]), events[|events| - 1]);
  }

  // ---------- main results ----------

  lemma PayerWithinRange(mac: Mac, key: string, s: System, k: nat)
    requires PayerOk(mac, key, s) && k < |s.spent| && Wei(s.payer.deposit) < TWO_256
    ensures 0 <= Wei(s.spent[k]) < TWO_256
  {
  }

  lemma PayeeWithinRange(s: System)
    requires PayeeOk(s) && Wei(s.payer.deposit) < TWO_256
    ensures 0 <= Wei(s.payee.spent) < TWO_256
  {
  }

  lemma PayeeInPlace(mac: Mac, key: string, s: System)
    requires PayerOk(mac, key, s) && PayeeOk(s) && Wei(s.payer.deposit) < TWO_256
    ensures Wei(s.payee.spent) == Wei(s.spent[s.payee.nonce - s.base])
  {
    var k: nat := s.payee.nonce - s.base;
    PayerWithinRange(mac, key, s, k);
    PayeeWithinRange(s);
    SmallMod(Wei(s.payee.spent));
    SmallMod(Wei(s.spent[k]));
  }

  lemma SmallMod(w: int)
    requires 0 <= w < TWO_256
    ensures w % TWO_256 == w
  {
  }

  /** Whatever the network does short of forging, the payee stands where the payer once stood, to the wei, and took the
      payer's updates one by one in the order they were issued. */
  lemma PayeeFollowsPayer(mac: Mac, key: string, ch: Channel, events: seq<Event>)
    requires ChannelOk(ch) && Wei(ch.deposit) < TWO_256 && UnforgedRun(mac, key, ch, events)
    ensures var s := Run(mac, key, ch, events);
            && 0 <= s.payee.nonce - s.base < |s.spent|
            && Wei(s.payee.spent) == Wei(s.spent[s.payee.nonce - s.base])
            && |s.accepted| <= |s.sent|
            && forall j :: 0 <= j < |s.accepted| ==> MessageOf(s.accepted[j]) == MessageOf(s.sent[j])
  {
    RunKeeps(mac, key, ch, events);
    var s := Run(mac, key, ch, events);
    PayeeInPlace(mac, key, s);
    forall j | 0 <= j < |s.accepted| ensures MessageOf(s.accepted[j]) == MessageOf(s.sent[j]) {
      assert Matched(s, j);
    }
  }

  /** An update once accepted is refused ever after. */
  lemma AcceptedOnce(mac: Mac, key: string, ch: Channel, events: seq<Event>, u: Update)
    requires ChannelOk(ch) && UnforgedRun(mac, key, ch, events) && u in Run(mac, key, ch, events).accepted
    ensures Receive(mac, Run(mac, key, ch, events).payee, key, u).Err?
  {
    RunKeeps(mac, key, ch, events);
    var s := Run(mac, key, ch, events);
    var j :| 0 <= j < |s.accepted| && s.accepted[j] == u;
    assert Matched(s, j);
  }

  /** The payee took a prefix of what was sent, unaltered. */
  predicate Exact(s: System) {
    && 0 <= s.payee.nonce - s.base < |s.spent| && s.payee.spent == s.spent[s.payee.nonce - s.base]
    && |s.accepted| <= |s.sent| && s.accepted == s.sent[..|s.accepted|]
  }

  lemma ExactStep(mac: Mac, key: string, s: System, e: Event)
    requires PayerOk(mac, key, s) && PayeeOk(s) && Exact(s) && (e.Deliver? ==> e.update in s.sent)
    ensures Exact(Step(mac, key, s, e))
  {
    if e.Deliver? {
      var k :| 0 <= k < |s.sent| && s.sent[k] == e.update;
      assert Issued(mac, key, s, k);
    }
  }

  /** Over a network that loses, repeats and reorders updates but does not alter them, the payee's amount is exactly
      one the payer had, and what it accepted is the beginning of what was sent. */
  lemma {:induction false} HonestRunsAreExact(mac: Mac, key: string, ch: Channel, events: seq<Event>)
    requires ChannelOk(ch) && HonestRun(mac, key, ch, events)
    ensures Exact(Run(mac, key, ch, events))
    decreases |events|
  {
    if events != [] {
      var before, e := events[..|events| - 1], events[|events| - 1];
      forall n | 0 <= n < |before| && before[n].Deliver?
        ensures before[n].update in Run(mac, key, ch, before[..n]).sent
      {
        assert before[..n] == events[..n] && before[n] == events[n];
      }
      HonestRunsAreExact(mac, key, ch, before);
      RunKeeps(mac, key, ch, before);
      assert e.Deliver? ==> events[|events| - 1].update in Run(mac, key, ch, events[..|events| - 1]).sent;
      ExactStep(mac, key, Run(mac, key, ch, before), e);
    }
  }

  /** Delivers the sent updates from the k-th on, in order. */
  function DeliverFrom(mac: Mac, key: string, s: System, k: nat): System
    decreases |s.sent| - k
  {
    if k >= |s.sent| then s
    else
      var s' := Step(mac, key, s, Deliver(s.sent[k]));
      if |s'.sent| == |s.sent| then DeliverFrom(mac, key, s', k + 1) else s'
  }

  /** Delivering what is missing, in order, makes the copies equal. */
  lemma {:induction false} InOrderDeliveryCatchesUp(mac: Mac, key: string, s: System)
    requires PayerOk(mac, key, s) && PayeeOk(s) && Exact(s) && s.payee.isOpen
    ensures var s' := DeliverFrom(mac, key, s, s.payee.nonce - s.base);
            && s'.payee.nonce == s.payer.nonce && s'.payee.spent == s.payer.spent
            && s'.accepted == s.sent && s'.payer == s.payer
    decreases |s.sent| - (s.payee.nonce - s.base)
  {
    var k := s.payee.nonce - s.base;
    if k < |s.sent| {
      assert Issued(mac, key, s, k);
      assert s.spent[k + 1] <= s.spent[|s.spent| - 1];
      var s' := Step(mac, key, s, Deliver(s.sent[k]));
      assert s'.payee.nonce == s.payee.nonce + 1;
      assert Unforged(mac, key, s, Deliver(s.sent[k]));
      DeliverStep(mac, key, s, s.sent[k]);
      ExactStep(mac, key, s, Deliver(s.sent[k]));
      InOrderDeliveryCatchesUp(mac, key, s');
    }
  }

  /** The deliveries that are missing, in order. */
  function Missing(s: System): seq<Event> {
    var k := s.payee.nonce - s.base;
    if 0 <= k <= |s.sent| then seq(|s.sent| - k, i requires 0 <= i < |s.sent| - k => Deliver(s.sent[k + i])) else []
  }

  lemma HonestOneMore(mac: Mac, key: string, ch: Channel, events: seq<Event>, e: Event)
    requires HonestRun(mac, key, ch, events) && e.Deliver? && e.update in Run(mac, key, ch, events).sent
    ensures HonestRun(mac, key, ch, events + [e])
    ensures Run(mac, key, ch, events + [e]) == Step(mac, key, Run(mac, key, ch, events), e)
  {
    var longer := events + [e];
    assert longer[..|events|] == events;
    forall n | 0 <= n < |longer| && longer[n].Deliver?
      ensures longer[n].update in Run(mac, key, ch, longer[..n]).sent
    {
      if n < |events| {
        assert longer[..n] == events[..n] && longer[n] == events[n];
      }
    }
  }

  /** The payee takes the first of the missing updates. */
  lemma NextIsTaken(mac: Mac, key: string, s: System)
    requires PayerOk(mac, key, s) && PayeeOk(s) && Exact(s) && s.payee.isOpen && s.payee.nonce - s.base < |s.sent|
    ensures var u := s.sent[s.payee.nonce - s.base];
            && u in s.sent
            && Step(mac, key, s, Deliver(u))
               == s.(payee := s.payee.(spent := u.amount, nonce := s.payee.nonce + 1), accepted := s.accepted + [u])
  {
    var k := s.payee.nonce - s.base;
    assert Issued(mac, key, s, k);
    assert s.spent[k + 1] <= s.spent[|s.spent| - 1];
  }

  lemma OneLessMissing(s: System, s': System)
    requires 0 <= s.payee.nonce - s.base < |s.sent|
    requires s'.sent == s.sent && s'.base == s.base && s'.payee.nonce == s.payee.nonce + 1
    ensures Missing(s) != [] && Missing(s)[0] == Deliver(s.sent[s.payee.nonce - s.base])
    ensures Missing(s') == Missing(s)[1..]
  {
  }

  lemma HonestRunKeeps(mac: Mac, key: string, ch: Channel, events: seq<Event>)
    requires ChannelOk(ch) && HonestRun(mac, key, ch, events)
    ensures var s := Run(mac, key, ch, events); PayerOk(mac, key, s) && PayeeOk(s) && Exact(s)
  {
    RunKeeps(mac, key, ch, events);
    HonestRunsAreExact(mac, key, ch, events);
  }

  /** The copies stand alike and everything sent was accepted. */
  predicate CaughtUp(s: System) {
    s.payee.nonce == s.payer.nonce && s.payee.spent == s.payer.spent && s.accepted == s.sent
  }

  lemma NothingMissing(mac: Mac, key: string, s: System)
    requires PayerOk(mac, key, s) && PayeeOk(s) && Exact(s)
    ensures |Missing(s)| == |s.sent| - (s.payee.nonce - s.base)
    ensures Missing(s) == [] ==> CaughtUp(s)
  {
  }

  /** Delivering the first of the missing updates leaves the others missing. */
  lemma DeliverNext(mac: Mac, key: string, ch: Channel, events: seq<Event>)
    requires ChannelOk(ch) && HonestRun(mac, key, ch, events) && Run(mac, key, ch, events).payee.isOpen
    requires Missing(Run(mac, key, ch, events)) != []
    ensures var s := Run(mac, key, ch, events);
            var longer := events + [Missing(s)[0]];
            && HonestRun(mac, key, ch, longer) && Run(mac, key, ch, longer).payee.isOpen
            && Missing(Run(mac, key, ch, longer)) == Missing(s)[1..] && Run(mac, key, ch, longer).sent == s.sent
  {
    var s := Run(mac, key, ch, events);
    HonestRunKeeps(mac, key, ch, events);
    NothingMissing(mac, key, s);
    NextIsTaken(mac, key, s);
    OneLessMissing(s, Step(mac, key, s, Deliver(s.sent[s.payee.nonce - s.base])));
    HonestOneMore(mac, key, ch, events, Missing(s)[0]);
  }

  /** The run that these events complete. */
  ghost predicate Completes(mac: Mac, key: string, ch: Channel, events: seq<Event>, sent: seq<Update>) {
    && HonestRun(mac, key, ch, events) && CaughtUp(Run(mac, key, ch, events))
    && Run(mac, key, ch, events).sent == sent
  }

  lemma OneAtATime<T>(a: seq<T>, b: seq<T>)
    requires b != []
    ensures (a + [b[0]]) + b[1..] == a + b
  {
  }

  lemma {:induction false} MissingComplete(mac: Mac, key: string, ch: Channel, events: seq<Event>, missing: seq<Event>)
    requires ChannelOk(ch) && HonestRun(mac, key, ch, events) && Run(mac, key, ch, events).payee.isOpen
    requires missing == Missing(Run(mac, key, ch, events))
    ensures Completes(mac, key, ch, events + missing, Run(mac, key, ch, events).sent)
    decreases |missing|
  {
    if missing == [] {
      HonestRunKeeps(mac, key, ch, events);
      NothingMissing(mac, key, Run(mac, key, ch, events));
      assert events + missing == events;
    } else {
      DeliverNext(mac, key, ch, events);
      MissingComplete(mac, key, ch, events + [missing[0]], missing[1..]);
      OneAtATime(events, missing);
    }
  }

  /** Any run over such a network, as long as the payee is open, can be completed: once the missing updates are
      delivered in order, the two copies stand alike and everything sent was accepted. */
  lemma HonestRunsCatchUp(mac: Mac, key: string, ch: Channel, events: seq<Event>)
    requires ChannelOk(ch) && HonestRun(mac, key, ch, events) && Run(mac, key, ch, events).payee.isOpen
    ensures var all := events + Missing(Run(mac, key, ch, events));
            && HonestRun(mac, key, ch, all) && CaughtUp(Run(mac, key, ch, all))
            && Run(mac, key, ch, all).sent == Run(mac, key, ch, events).sent
  {
    MissingComplete(mac, key, ch, events, Missing(Run(mac, key, ch, events)));
  }

  lemma CopiesCloseAlike(mac: Mac, key: string, a: Channel, b: Channel, r1: string, r2: string)
    requires a.id == b.id && a.nonce == b.nonce && Wei(a.spent) == Wei(b.spent)
    requires Close(mac, a, key, r1).Ok? && Close(mac, b, key, r2).Ok?
    ensures var p, q := Close(mac, a, key, r1).value.1, Close(mac, b, key, r2).value.1;
            p.finalNonce == q.finalNonce && Wei(p.finalAmount) == Wei(q.finalAmount) && p.senderSig == q.senderSig
  {
  }

  /** Closing both copies yields proofs that agree on nonce and amount, to the wei, and carry the same payer signature,
      exactly when the copies stand at the same nonce. */
  lemma CloseAgrees(mac: Mac, key: string, ch: Channel, events: seq<Event>, r1: string, r2: string)
    requires ChannelOk(ch) && Wei(ch.deposit) < TWO_256 && UnforgedRun(mac, key, ch, events)
    requires Close(mac, Run(mac, key, ch, events).payer, key, r1).Ok?
    requires Close(mac, Run(mac, key, ch, events).payee, key, r2).Ok?
    ensures var s := Run(mac, key, ch, events);
            var p, q := Close(mac, s.payer, key, r1).value.1, Close(mac, s.payee, key, r2).value.1;
            s.payer.nonce == s.payee.nonce <==>
            p.finalNonce == q.finalNonce && Wei(p.finalAmount) == Wei(q.finalAmount) && p.senderSig == q.senderSig
  {
    RunKeeps(mac, key, ch, events);
    var s := Run(mac, key, ch, events);
    PayeeInPlace(mac, key, s);
    if s.payer.nonce == s.payee.nonce {
      CopiesCloseAlike(mac, key, s.payer, s.payee, r1, r2);
    }
  }
}
