/** The queue worker as a state machine whose steps end at its awaits (pipeline/base_worker.py). */
module Workers {
  import opened Sequences

  const MAX_RETRIES: nat := 3

  /** What became of an item: written, dropped with a log line that names it, or thrown away with the rest of its batch
      because naming it failed. */
  datatype Fate = Written | Dropped | Discarded

  datatype Entry<T> = Entry(item: T, fate: Fate)

  datatype Config = Config(batchSize: nat, capacity: nat)

  /** Where a worker died: before its loop, in the drain phase, or closing its pool after it. */
  datatype Place = AtStart | InDrain | AtClose

  /** Where the worker is suspended. */
  datatype Phase =
    | Starting                 // for its connection pool
    | Waiting                  // for the first item of a batch
    | Flushing(attempt: nat)   // for the flush of the whole batch
    | Sleeping(attempt: nat)   // after a transient failure
    | Inserting                // for the flush of the next single item
    | Recovering               // after an unexpected error
    | Closing                  // for its pool to close
    | Stopped
    | Crashed(place: Place)

  /** `history` lists what happened to the batches the loop is done with, `interrupted` what the pass that a
      cancellation cut short had done, and `pass` what the present one has done. `drained` counts the items taken when
      the drain phase began. */
  datatype State<T> = State(
    accepted: seq<T>,
    queue: seq<T>,
    batch: seq<T>,
    history: seq<Entry<T>>,
    interrupted: seq<Entry<T>>,
    pass: seq<Entry<T>>,
    phase: Phase,
    draining: bool,
    shutdown: bool,
    drained: nat)

  datatype Event<T> =
    | Put(item: T)             // another task offers an item
    | Shutdown
    | PoolReady
    | PoolFailed
    | Got                      // the queue delivered an item
    | TimedOut
    | FlushOk
    | FlushTransient
    | FlushFatal
    | Slept
    | InsertOk
    | InsertFailed(nameable: bool)   // whether `_make_item_id` works on the item
    | Closed
    | CloseFailed
    | Cancel(landed: bool)     // whether a flush under way takes effect nevertheless

  function Initial<T>(): State<T> {
    State([], [], [], [], [], [], Starting, false, false, 0)
  }

  function WithFate<T>(items: seq<T>, fate: Fate): (r: seq<Entry<T>>)
    ensures |r| == |items|
  {
    seq(|items|, i requires 0 <= i < |items| => Entry(items[i], fate))
  }

  function Items<T>(entries: seq<Entry<T>>): (r: seq<T>)
    ensures |r| == |entries|
  {
    seq(|entries|, i requires 0 <= i < |entries| => entries[i].item)
  }

  // ---------- the steps ----------

  /** Moves queued items to the batch up to its size, then flushes or waits again. */
  function Fill<T>(c: Config, s: State<T>): State<T> {
    var room := if |s.batch| < c.batchSize then c.batchSize - |s.batch| else 0;
    var n := if room < |s.queue| then room else |s.queue|;
    var batch := s.batch + s.queue[..n];
    if batch == [] then Loop(s)
    else s.(batch := batch, queue := s.queue[n..], phase := Flushing(0))
  }

  /** Back at the top of the loop, with an empty batch. */
  function Loop<T>(s: State<T>): State<T> {
    if s.shutdown then Drain(s) else s.(phase := Waiting)
  }

  /** Everything still queued joins the batch for one last pass. */
  function Drain<T>(s: State<T>): State<T> {
    var batch := s.batch + s.queue;
    s.(batch := batch, queue := [], draining := true, drained := |s.history| + |batch|,
       phase := if batch == [] then Closing else Flushing(0))
  }

  /** The pass over the batch is over. */
  function PassDone<T>(s: State<T>): State<T> {
    if s.draining then s.(phase := Closing)
    else Loop(s.(history := s.history + s.pass, pass := [], batch := []))
  }

  /** The next single insert, or the end of the pass. */
  function Insert<T>(s: State<T>, fate: Fate): State<T>
    requires |s.pass| < |s.batch|
  {
    var s' := s.(pass := s.pass + [Entry(s.batch[|s.pass|], fate)]);
    if |s'.pass| == |s'.batch| then PassDone(s') else s'
  }

  /** An exception leaves the pass: the loop forgets the batch, the drain phase dies of it. */
  function PassRaised<T>(s: State<T>): State<T>
    requires |s.pass| <= |s.batch|
  {
    if s.draining then s.(phase := Crashed(InDrain))
    else s.(history := s.history + s.pass + WithFate(s.batch[|s.pass|..], Discarded), pass := [], batch := [],
            phase := Recovering)
  }

  /** What a flush that was under way when the worker was cancelled may have written. */
  function Landed<T>(s: State<T>): seq<Entry<T>>
    requires |s.pass| <= |s.batch|
  {
    if s.phase.Flushing? then WithFate(s.batch, Written)
    else if s.phase.Inserting? && |s.pass| < |s.batch| then s.pass + [Entry(s.batch[|s.pass|], Written)]
    else s.pass
  }

  /** The loop turns a cancellation into the drain phase; outside the loop it ends the worker. */
  function Cancelled<T>(s: State<T>, landed: bool): State<T>
    requires |s.pass| <= |s.batch|
  {
    match s.phase
    case Starting => s.(phase := Crashed(AtStart))
    case Closing => s.(phase := Crashed(AtClose))
    case Stopped => s
    case Crashed(_) => s
    case _ =>
      var done := if landed then Landed(s) else s.pass;
      if s.draining then s.(pass := done, phase := Crashed(InDrain))
      else Drain(s.(interrupted := done, pass := []))
  }

  /** One event; one that cannot happen in the state changes nothing. */
  function Step<T>(c: Config, s: State<T>, e: Event<T>): State<T> {
    match e
    case Put(x) => if |s.queue| < c.capacity then s.(accepted := s.accepted + [x], queue := s.queue + [x]) else s
    case Shutdown => s.(shutdown := true)
    case PoolReady => if s.phase.Starting? then Loop(s) else s
    case PoolFailed => if s.phase.Starting? then s.(phase := Crashed(AtStart)) else s
    case Closed => if s.phase.Closing? then s.(phase := Stopped) else s
    case CloseFailed => if s.phase.Closing? then s.(phase := Crashed(AtClose)) else s
    case Got =>
      if s.phase.Waiting? && s.queue != [] then Fill(c, s.(batch := s.batch + [s.queue[0]], queue := s.queue[1..]))
      else s
    case TimedOut => if s.phase.Waiting? then Fill(c, s) else s
    case FlushOk => if s.phase.Flushing? then PassDone(s.(pass := WithFate(s.batch, Written))) else s
    case FlushTransient => if s.phase.Flushing? then s.(phase := Sleeping(s.phase.attempt)) else s
    case FlushFatal => if s.phase.Flushing? then s.(phase := Inserting) else s
    case Slept =>
      if s.phase.Sleeping? then
        if s.phase.attempt + 1 < MAX_RETRIES then s.(phase := Flushing(s.phase.attempt + 1)) else s.(phase := Inserting)
      else if s.phase.Recovering? then Loop(s)
      else s
    case InsertOk => if s.phase.Inserting? && |s.pass| < |s.batch| then Insert(s, Written) else s
    case InsertFailed(nameable) =>
      if s.phase.Inserting? && |s.pass| < |s.batch| then if nameable then Insert(s, Dropped) else PassRaised(s) else s
    case Cancel(landed) => if |s.pass| <= |s.batch| then Cancelled(s, landed) else s
  }

  function Run<T>(c: Config, events: seq<Event<T>>): State<T> {
    if events == [] then Initial()
    else Step(c, Run(c, events[..|events| - 1]), events[|events| - 1])
  }

  // ---------- what every step keeps ----------

  /** These entries are about the first items of the batch, in order. */
  predicate IsPrefix<T(==)>(entries: seq<Entry<T>>, batch: seq<T>) {
    |entries| <= |batch| && Items(entries) == batch[..|entries|]
  }

  predicate PhaseOk<T>(s: State<T>) {
    match s.phase
    case Starting => s.batch == [] && s.pass == [] && s.history == [] && !s.draining
    case Waiting => s.batch == [] && s.pass == [] && !s.draining
    case Recovering => s.batch == [] && s.pass == [] && !s.draining
    case Flushing(n) => n < MAX_RETRIES && s.batch != [] && s.pass == []
    case Sleeping(n) => n < MAX_RETRIES && s.batch != [] && s.pass == []
    case Inserting => |s.pass| < |s.batch|
    case Closing => s.draining && |s.pass| == |s.batch|
    case Stopped => s.draining && |s.pass| == |s.batch|
    case Crashed(place) =>
      match place
      case AtStart => s.batch == [] && s.pass == [] && s.history == [] && !s.draining
      case InDrain => s.draining
      case AtClose => s.draining && |s.pass| == |s.batch|
  }

  /** The most items that the loop puts into a batch. */
  function Room(c: Config): nat { if c.batchSize > 1 then c.batchSize else 1 }

  /** The parts fit together in size. */
  predicate Shape<T>(c: Config, s: State<T>) {
    && PhaseOk(s)
    && |s.pass| <= |s.batch| && |s.interrupted| <= |s.batch| && |s.queue| <= c.capacity
    && (if s.draining then s.drained == |s.history| + |s.batch| && |s.batch| <= Room(c) + c.capacity
        else s.interrupted == [] && |s.batch| <= Room(c))
  }

  /** Every accepted item is accounted for, in order: in the history, in the batch or in the queue. */
  predicate Conserved<T(==)>(s: State<T>) {
    Items(s.history) + (s.batch + s.queue) == s.accepted
  }

  predicate Accounts<T(==)>(s: State<T>) {
    Conserved(s) && IsPrefix(s.pass, s.batch) && IsPrefix(s.interrupted, s.batch)
  }

  predicate Inv<T(==)>(c: Config, s: State<T>) { Shape(c, s) && Accounts(s) }

  lemma ItemsConcat<T>(es: seq<Entry<T>>, fs: seq<Entry<T>>)
    ensures Items(es + fs) == Items(es) + Items(fs)
  {
  }

  lemma ItemsWithFate<T>(items: seq<T>, fate: Fate)
    ensures Items(WithFate(items, fate)) == items
  {
  }

  // ---------- the items ----------

  lemma Moved<T>(batch: seq<T>, queue: seq<T>, n: nat)
    requires n <= |queue|
    ensures (batch + queue[..n]) + queue[n..] == batch + queue
  {
    assert queue == queue[..n] + queue[n..];
  }

  lemma LongerBatch<T>(entries: seq<Entry<T>>, batch: seq<T>, more: seq<T>)
    requires IsPrefix(entries, batch)
    ensures IsPrefix(entries, batch + more)
  {
    assert (batch + more)[..|entries|] == batch[..|entries|];
  }

  lemma DrainAccounts<T>(s: State<T>)
    requires Accounts(s)
    ensures Accounts(Drain(s))
  {
    Moved(s.batch, s.queue, |s.queue|);
    assert s.queue[..|s.queue|] == s.queue && s.queue[|s.queue|..] == [];
    LongerBatch(s.pass, s.batch, s.queue);
    LongerBatch(s.interrupted, s.batch, s.queue);
  }

  lemma LoopAccounts<T>(s: State<T>)
    requires Accounts(s)
    ensures Accounts(Loop(s))
  {
    DrainAccounts(s);
  }

  lemma FillAccounts<T>(c: Config, s: State<T>)
    requires Accounts(s)
    ensures Accounts(Fill(c, s))
  {
    var room := if |s.batch| < c.batchSize then c.batchSize - |s.batch| else 0;
    var n := if room < |s.queue| then room else |s.queue|;
    Moved(s.batch, s.queue, n);
    LongerBatch(s.pass, s.batch, s.queue[..n]);
    LongerBatch(s.interrupted, s.batch, s.queue[..n]);
    LoopAccounts(s);
  }

  lemma GotAccounts<T>(s: State<T>)
    requires Accounts(s) && s.queue != []
    ensures Accounts(s.(batch := s.batch + [s.queue[0]], queue := s.queue[1..]))
  {
    Moved(s.batch, s.queue, 1);
    assert s.queue[..1] == [s.queue[0]];
    LongerBatch(s.pass, s.batch, [s.queue[0]]);
    LongerBatch(s.interrupted, s.batch, [s.queue[0]]);
  }

  /** The batch goes into the history. */
  lemma FiledAccounts<T>(s: State<T>, entries: seq<Entry<T>>)
    requires Accounts(s) && Items(entries) == s.batch && s.interrupted == []
    ensures Accounts(s.(history := s.history + entries, pass := [], batch := []))
  {
    ItemsConcat(s.history, entries);
    Reassociate(Items(s.history), s.batch, s.queue);
    assert [] + s.queue == s.queue;
  }

  lemma PassDoneAccounts<T>(s: State<T>)
    requires Accounts(s) && |s.pass| == |s.batch| && (!s.draining ==> s.interrupted == [])
    ensures Accounts(PassDone(s))
  {
    if !s.draining {
      assert s.batch[..|s.pass|] == s.batch;
      FiledAccounts(s, s.pass);
      LoopAccounts(s.(history := s.history + s.pass, pass := [], batch := []));
    }
  }

  lemma OneMoreEntry<T>(pass: seq<Entry<T>>, batch: seq<T>, fate: Fate)
    requires IsPrefix(pass, batch) && |pass| < |batch|
    ensures IsPrefix(pass + [Entry(batch[|pass|], fate)], batch)
  {
    var x := Entry(batch[|pass|], fate);
    ItemsConcat(pass, [x]);
    assert Items([x]) == [x.item];
    assert batch[..|pass| + 1] == batch[..|pass|] + [batch[|pass|]];
  }

  lemma InsertAccounts<T>(s: State<T>, fate: Fate)
    requires Accounts(s) && |s.pass| < |s.batch| && (!s.draining ==> s.interrupted == [])
    ensures Accounts(Insert(s, fate))
  {
    OneMoreEntry(s.pass, s.batch, fate);
    var s' := s.(pass := s.pass + [Entry(s.batch[|s.pass|], fate)]);
    if |s'.pass| == |s'.batch| {
      PassDoneAccounts(s');
    }
  }

  lemma PassRaisedAccounts<T>(s: State<T>)
    requires Accounts(s) && (!s.draining ==> s.interrupted == [])
    ensures Accounts(PassRaised(s))
  {
    if !s.draining {
      var rest := WithFate(s.batch[|s.pass|..], Discarded);
      ItemsWithFate(s.batch[|s.pass|..], Discarded);
      ItemsConcat(s.pass, rest);
      Reassociate(s.history, s.pass, rest);
      assert s.batch == s.batch[..|s.pass|] + s.batch[|s.pass|..];
      FiledAccounts(s, s.pass + rest);
    }
  }

  lemma LandedIsPrefix<T>(s: State<T>)
    requires IsPrefix(s.pass, s.batch)
    ensures IsPrefix(Landed(s), s.batch)
  {
    if s.phase.Flushing? {
      ItemsWithFate(s.batch, Written);
      assert s.batch[..|s.batch|] == s.batch;
    } else if s.phase.Inserting? && |s.pass| < |s.batch| {
      OneMoreEntry(s.pass, s.batch, Written);
    }
  }

  lemma CancelledAccounts<T>(s: State<T>, landed: bool)
    requires Accounts(s)
    ensures Accounts(Cancelled(s, landed))
  {
    LandedIsPrefix(s);
    var done := if landed then Landed(s) else s.pass;
    if !s.draining {
      DrainAccounts(s.(interrupted := done, pass := []));
    }
  }

  lemma PutAccounts<T>(s: State<T>, x: T)
    requires Accounts(s)
    ensures Accounts(s.(accepted := s.accepted + [x], queue := s.queue + [x]))
  {
    Reassociate(s.batch, s.queue, [x]);
    Reassociate(Items(s.history), s.batch + s.queue, [x]);
  }

  /** The events that touch no items. */
  predicate IsSimple<T>(e: Event<T>) {
    e.Shutdown? || e.PoolFailed? || e.FlushTransient? || e.FlushFatal? || e.Closed? || e.CloseFailed?
  }

  lemma SimpleAccounts<T>(c: Config, s: State<T>, e: Event<T>)
    requires Accounts(s) && IsSimple(e)
    ensures Accounts(Step(c, s, e))
  {
  }

  lemma InsertEventAccounts<T>(c: Config, s: State<T>, e: Event<T>)
    requires Inv(c, s) && (e.InsertOk? || e.InsertFailed?)
    ensures Accounts(Step(c, s, e))
  {
    if s.phase.Inserting? {
      InsertAccounts(s, Written);
      InsertAccounts(s, Dropped);
      PassRaisedAccounts(s);
    }
  }

  lemma FlushedAccounts<T>(c: Config, s: State<T>)
    requires Inv(c, s)
    ensures Accounts(Step(c, s, FlushOk))
  {
    if s.phase.Flushing? {
      LandedIsPrefix(s);
      PassDoneAccounts(s.(pass := WithFate(s.batch, Written)));
    }
  }

  lemma GotEventAccounts<T>(c: Config, s: State<T>)
    requires Accounts(s)
    ensures Accounts(Step(c, s, Got))
  {
    if s.queue != [] {
      GotAccounts(s);
      FillAccounts(c, s.(batch := s.batch + [s.queue[0]], queue := s.queue[1..]));
    }
  }

  lemma SleptAccounts<T>(c: Config, s: State<T>)
    requires Accounts(s)
    ensures Accounts(Step(c, s, Slept))
  {
    LoopAccounts(s);
  }

  lemma StepAccounts<T>(c: Config, s: State<T>, e: Event<T>)
    requires Inv(c, s)
    ensures Accounts(Step(c, s, e))
  {
    match e
    case Put(x) => PutAccounts(s, x);
    case PoolReady => LoopAccounts(s);
    case Got => GotEventAccounts(c, s);
    case TimedOut => FillAccounts(c, s);
    case FlushOk => FlushedAccounts(c, s);
    case Slept => SleptAccounts(c, s);
    case InsertOk => InsertEventAccounts(c, s, e);
    case InsertFailed(_) => InsertEventAccounts(c, s, e);
    case Cancel(landed) => CancelledAccounts(s, landed);
    case _ => SimpleAccounts(c, s, e);
  }

  // ---------- the sizes ----------

  lemma DrainShape<T>(c: Config, s: State<T>)
    requires |s.batch| <= Room(c) && |s.queue| <= c.capacity && s.pass == [] && |s.interrupted| <= |s.batch|
    ensures Shape(c, Drain(s))
  {
  }

  lemma LoopShape<T>(c: Config, s: State<T>)
    requires s.batch == [] && s.pass == [] && s.interrupted == [] && !s.draining && |s.queue| <= c.capacity
    ensures Shape(c, Loop(s))
  {
    DrainShape(c, s);
  }

  lemma FillShape<T>(c: Config, s: State<T>)
    requires |s.batch| <= 1 && s.pass == [] && s.interrupted == [] && !s.draining && |s.queue| <= c.capacity
    ensures Shape(c, Fill(c, s))
  {
    if s.batch == [] {
      LoopShape(c, s);
    }
  }

  lemma PassDoneShape<T>(c: Config, s: State<T>)
    requires |s.pass| == |s.batch| && |s.interrupted| <= |s.batch| && |s.queue| <= c.capacity
    requires if s.draining then s.drained == |s.history| + |s.batch| && |s.batch| <= Room(c) + c.capacity
             else s.interrupted == []
    ensures Shape(c, PassDone(s))
  {
    if !s.draining {
      LoopShape(c, s.(history := s.history + s.pass, pass := [], batch := []));
    }
  }

  lemma InsertShape<T>(c: Config, s: State<T>, fate: Fate)
    requires Shape(c, s) && s.phase.Inserting?
    ensures Shape(c, Insert(s, fate))
  {
    var s' := s.(pass := s.pass + [Entry(s.batch[|s.pass|], fate)]);
    if |s'.pass| == |s'.batch| {
      PassDoneShape(c, s');
    }
  }

  lemma CancelledShape<T>(c: Config, s: State<T>, landed: bool)
    requires Shape(c, s)
    ensures Shape(c, Cancelled(s, landed))
  {
    if !s.draining {
      DrainShape(c, s.(interrupted := if landed then Landed(s) else s.pass, pass := []));
    }
  }

  lemma SimpleShape<T>(c: Config, s: State<T>, e: Event<T>)
    requires Shape(c, s) && (IsSimple(e) || e.Put?)
    ensures Shape(c, Step(c, s, e))
  {
  }

  lemma PassRaisedShape<T>(c: Config, s: State<T>)
    requires Shape(c, s) && s.phase.Inserting?
    ensures Shape(c, PassRaised(s))
  {
  }

  lemma InsertEventShape<T>(c: Config, s: State<T>, e: Event<T>)
    requires Shape(c, s) && (e.InsertOk? || e.InsertFailed?)
    ensures Shape(c, Step(c, s, e))
  {
    if s.phase.Inserting? {
      InsertShape(c, s, Written);
      InsertShape(c, s, Dropped);
      PassRaisedShape(c, s);
    }
  }

  lemma FillEventShape<T>(c: Config, s: State<T>, e: Event<T>)
    requires Shape(c, s) && (e.Got? || e.TimedOut?)
    ensures Shape(c, Step(c, s, e))
  {
    if s.phase.Waiting? {
      if e.TimedOut? {
        FillShape(c, s);
      } else if s.queue != [] {
        FillShape(c, s.(batch := s.batch + [s.queue[0]], queue := s.queue[1..]));
      }
    }
  }

  lemma SleptShape<T>(c: Config, s: State<T>)
    requires Shape(c, s)
    ensures Shape(c, Step(c, s, Slept))
  {
    if s.phase.Recovering? {
      LoopShape(c, s);
    }
  }

  lemma FlushedShape<T>(c: Config, s: State<T>)
    requires Shape(c, s)
    ensures Shape(c, Step(c, s, FlushOk))
  {
    if s.phase.Flushing? {
      PassDoneShape(c, s.(pass := WithFate(s.batch, Written)));
    }
  }

  lemma StepShape<T>(c: Config, s: State<T>, e: Event<T>)
    requires Shape(c, s)
    ensures Shape(c, Step(c, s, e))
  {
    match e
    case PoolReady => if s.phase.Starting? { LoopShape(c, s); }
    case Got => FillEventShape(c, s, e);
    case TimedOut => FillEventShape(c, s, e);
    case FlushOk => FlushedShape(c, s);
    case Slept => SleptShape(c, s);
    case InsertOk => InsertEventShape(c, s, e);
    case InsertFailed(_) => InsertEventShape(c, s, e);
    case Cancel(landed) => CancelledShape(c, s, landed);
    case _ => SimpleShape(c, s, e);
  }

  /** What every step of the worker keeps. */
  lemma StepKeeps<T>(c: Config, s: State<T>, e: Event<T>)
    requires Inv(c, s)
    ensures Inv(c, Step(c, s, e))
  {
    StepShape(c, s, e);
    StepAccounts(c, s, e);
  }

  lemma {:induction false} RunKeeps<T>(c: Config, events: seq<Event<T>>)
    ensures Inv(c, Run(c, events))
    decreases |events|
  {
    if events != [] {
      RunKeeps(c, events[..|events| - 1]);
      StepKeeps(c, Run(c, events[..|events| - 1]), events[|events| - 1]);
    }
  }

  // ---------- conservation, order and loss ----------

  /** Everything that happened to items, in the order it happened. */
  function Log<T>(s: State<T>): seq<Entry<T>> { s.history + s.interrupted + s.pass }

  /** What counts as done with: all of it but the pass that is being repeated. */
  function Settled<T>(s: State<T>): seq<Entry<T>> { s.history + s.pass }

  function Unsettled<T>(s: State<T>): seq<T> { if |s.pass| <= |s.batch| then s.batch[|s.pass|..] else [] }

  lemma SettledItems<T>(s: State<T>)
    requires Accounts(s)
    ensures Items(Settled(s)) + Unsettled(s) == Items(s.history) + s.batch
  {
    ItemsConcat(s.history, s.pass);
    assert s.batch == s.batch[..|s.pass|] + s.batch[|s.pass|..];
    Reassociate(Items(s.history), Items(s.pass), Unsettled(s));
  }

  lemma InvConserves<T>(c: Config, s: State<T>)
    requires Inv(c, s)
    ensures Items(Settled(s)) + Unsettled(s) + s.queue == s.accepted
    ensures multiset(s.accepted) == multiset(Items(Settled(s))) + multiset(Unsettled(s)) + multiset(s.queue)
  {
    SettledItems(s);
    Reassociate(Items(s.history), s.batch, s.queue);
  }

  /** At every moment of every run the settled items, those still in the batch and those still queued are exactly the
      accepted ones, in order. */
  lemma ItemsAreConserved<T>(c: Config, events: seq<Event<T>>)
    ensures var s := Run(c, events);
            && Items(Settled(s)) + Unsettled(s) + s.queue == s.accepted
            && multiset(s.accepted) == multiset(Items(Settled(s))) + multiset(Unsettled(s)) + multiset(s.queue)
            && |s.queue| <= c.capacity
  {
    RunKeeps(c, events);
    InvConserves(c, Run(c, events));
  }

  lemma StepInterrupts<T>(c: Config, s: State<T>, e: Event<T>)
    requires !e.Cancel?
    ensures Step(c, s, e).interrupted == s.interrupted
  {
  }

  lemma {:induction false} NothingInterrupted<T>(c: Config, events: seq<Event<T>>)
    requires forall e :: e in events ==> !e.Cancel?
    ensures Run(c, events).interrupted == []
    decreases |events|
  {
    if events != [] {
      NothingInterrupted(c, events[..|events| - 1]);
      StepInterrupts(c, Run(c, events[..|events| - 1]), events[|events| - 1]);
    }
  }

  lemma PrefixOf<T>(xs: seq<T>, ys: seq<T>, all: seq<T>)
    requires xs + ys == all
    ensures |xs| <= |all| && xs == all[..|xs|] && ys == all[|xs|..]
  {
  }

  lemma LogUninterrupted<T>(s: State<T>)
    requires s.interrupted == []
    ensures Log(s) == Settled(s)
  {
    assert s.history + [] == s.history;
  }

  lemma SettledInOrder<T>(c: Config, s: State<T>)
    requires Inv(c, s)
    ensures |Settled(s)| <= |s.accepted| && Items(Settled(s)) == s.accepted[..|Settled(s)|]
  {
    InvConserves(c, s);
    Reassociate(Items(Settled(s)), Unsettled(s), s.queue);
    PrefixOf(Items(Settled(s)), Unsettled(s) + s.queue, s.accepted);
  }

  /** Without a cancellation every item is dealt with at most once and in the order of arrival: the log is a prefix of
      what was accepted. */
  lemma UncancelledRunsAreFifo<T>(c: Config, events: seq<Event<T>>)
    requires forall e :: e in events ==> !e.Cancel?
    ensures var s := Run(c, events);
            |Log(s)| <= |s.accepted| && Items(Log(s)) == s.accepted[..|Log(s)|]
  {
    NothingInterrupted(c, events);
    RunKeeps(c, events);
    LogUninterrupted(Run(c, events));
    SettledInOrder(c, Run(c, events));
  }

  // ---------- what is met twice ----------

  /** A cancellation that makes the drain phase repeat something: it strikes after a single insert, or a flush under way
      takes effect nevertheless. */
  predicate Interrupts<T>(s: State<T>, e: Event<T>) {
    && e.Cancel? && !s.draining
    && (s.phase.Flushing? || s.phase.Sleeping? || s.phase.Inserting?)
    && (s.pass != [] || (e.landed && !s.phase.Sleeping?))
  }

  lemma StepRepeats<T>(c: Config, s: State<T>, e: Event<T>)
    requires Shape(c, s)
    ensures Step(c, s, e).interrupted != [] <==> s.interrupted != [] || Interrupts(s, e)
  {
    if !e.Cancel? {
      StepInterrupts(c, s, e);
    }
  }

  /** At some moment of the run the event was of this kind. */
  predicate Ever<T>(c: Config, events: seq<Event<T>>, kind: (State<T>, Event<T>) -> bool)
    decreases |events|
  {
    && events != []
    && var k := |events| - 1;
       Ever(c, events[..k], kind) || kind(Run(c, events[..k]), events[k])
  }

  function Interrupting<T>(): (State<T>, Event<T>) -> bool { (s: State<T>, e: Event<T>) => Interrupts(s, e) }

  lemma {:induction false} RepeatsWhenInterrupted<T>(c: Config, events: seq<Event<T>>)
    ensures Run(c, events).interrupted != [] <==> Ever(c, events, Interrupting())
    decreases |events|
  {
    if events != [] {
      var before, e := events[..|events| - 1], events[|events| - 1];
      RunKeeps(c, before);
      StepRepeats(c, Run(c, before), e);
      RepeatsWhenInterrupted(c, before);
    }
  }

  lemma LogLength<T>(s: State<T>)
    ensures |Log(s)| == |Settled(s)| + |s.interrupted|
  {
  }

  /** A worker that stopped has dealt with what it took exactly once and in order, unless a cancellation interrupted a
      pass that had got somewhere; then it met again exactly the first items of that batch. */
  lemma StoppedRepeats<T>(c: Config, events: seq<Event<T>>)
    requires Run(c, events).phase.Stopped?
    ensures var s := Run(c, events);
            && |Log(s)| == s.drained + |s.interrupted| && IsPrefix(s.interrupted, s.batch)
            && s.drained <= |s.accepted|
            && (Items(Log(s)) == s.accepted[..s.drained] <==> !Ever(c, events, Interrupting()))
  {
    RunKeeps(c, events);
    RepeatsWhenInterrupted(c, events);
    StoppedOnce(c, Run(c, events));
  }

  lemma StoppedOnce<T>(c: Config, s: State<T>)
    requires Inv(c, s) && s.phase.Stopped?
    ensures |Log(s)| == s.drained + |s.interrupted| && s.drained <= |s.accepted|
    ensures Items(Log(s)) == s.accepted[..s.drained] <==> s.interrupted == []
  {
    LogLength(s);
    SettledInOrder(c, s);
    if s.interrupted == [] {
      LogUninterrupted(s);
    } else {
      assert |Items(Log(s))| != |s.accepted[..s.drained]|;
    }
  }

  /** The drain phase takes everything accepted so far, once. */
  lemma DrainTakesAll<T>(c: Config, s: State<T>, e: Event<T>)
    requires Inv(c, s)
    ensures !s.draining && Step(c, s, e).draining ==>
              Step(c, s, e).drained == |s.accepted| && Step(c, s, e).accepted == s.accepted
    ensures s.draining ==> Step(c, s, e).draining && Step(c, s, e).drained == s.drained
    ensures s.accepted <= Step(c, s, e).accepted
  {
    StepKeeps(c, s, e);
    DrainEmpties(c, s, e);
    if !s.draining && Step(c, s, e).draining {
      SizeOfAccepted(Step(c, s, e));
    }
  }

  lemma DrainEmpties<T>(c: Config, s: State<T>, e: Event<T>)
    requires Shape(c, s)
    ensures !s.draining && Step(c, s, e).draining ==> Step(c, s, e).queue == [] && Step(c, s, e).accepted == s.accepted
    ensures s.draining ==> Step(c, s, e).draining && Step(c, s, e).drained == s.drained
    ensures s.accepted <= Step(c, s, e).accepted
  {
  }

  lemma SizeOfAccepted<T>(s: State<T>)
    requires Conserved(s)
    ensures |s.accepted| == |s.history| + |s.batch| + |s.queue|
  {
    assert |Items(s.history) + (s.batch + s.queue)| == |s.accepted|;
  }

  lemma DoneIsAll<T>(c: Config, s: State<T>)
    requires Inv(c, s) && s.draining
    ensures s.drained <= |s.accepted| && s.queue == s.accepted[s.drained..]
    ensures Items(Settled(s)) + Unsettled(s) == s.accepted[..s.drained]
  {
    InvConserves(c, s);
    PrefixOf(Items(Settled(s)) + Unsettled(s), s.queue, s.accepted);
  }

  /** A worker that stops has dealt with every item accepted before the drain phase, cancelled or not. */
  lemma StoppedLosesNothing<T>(c: Config, events: seq<Event<T>>)
    requires Run(c, events).phase.Stopped?
    ensures var s := Run(c, events);
            && s.drained <= |s.accepted| && Items(Settled(s)) == s.accepted[..s.drained]
            && s.queue == s.accepted[s.drained..]
  {
    RunKeeps(c, events);
    var s := Run(c, events);
    DoneIsAll(c, s);
    assert Unsettled(s) == [];
  }

  // ---------- when a worker dies ----------

  predicate InPass<T>(s: State<T>) { s.phase.Flushing? || s.phase.Sleeping? || s.phase.Inserting? }

  /** What kills a worker in each place. */
  predicate Kills<T>(s: State<T>, e: Event<T>, place: Place) {
    match place
    case AtStart => s.phase.Starting? && (e.PoolFailed? || e.Cancel?)
    case InDrain => s.draining && InPass(s) && (e.Cancel? || (s.phase.Inserting? && e == InsertFailed(false)))
    case AtClose => s.phase.Closing? && (e.CloseFailed? || e.Cancel?)
  }

  lemma CancelKills<T>(c: Config, s: State<T>, landed: bool, place: Place)
    requires Shape(c, s)
    ensures Step(c, s, Cancel(landed)).phase == Crashed(place) <==>
            s.phase == Crashed(place) || Kills(s, Cancel(landed), place)
  {
  }

  lemma InsertKills<T>(c: Config, s: State<T>, e: Event<T>, place: Place)
    requires Shape(c, s) && (e.InsertOk? || e.InsertFailed?)
    ensures Step(c, s, e).phase == Crashed(place) <==> s.phase == Crashed(place) || Kills(s, e, place)
  {
  }

  lemma OthersKill<T>(c: Config, s: State<T>, e: Event<T>, place: Place)
    requires Shape(c, s) && !e.Cancel? && !e.InsertOk? && !e.InsertFailed?
    ensures Step(c, s, e).phase == Crashed(place) <==> s.phase == Crashed(place) || Kills(s, e, place)
  {
  }

  lemma StepKills<T>(c: Config, s: State<T>, e: Event<T>, place: Place)
    requires Shape(c, s)
    ensures Step(c, s, e).phase == Crashed(place) <==> s.phase == Crashed(place) || Kills(s, e, place)
  {
    match e
    case Cancel(landed) => CancelKills(c, s, landed, place);
    case InsertOk => InsertKills(c, s, e, place);
    case InsertFailed(_) => InsertKills(c, s, e, place);
    case _ => OthersKill(c, s, e, place);
  }

  function Killing<T>(place: Place): (State<T>, Event<T>) -> bool { (s: State<T>, e: Event<T>) => Kills(s, e, place) }

  /** A worker is dead exactly when something killed it: no pool or a cancellation before the loop, a cancellation or an
      item it cannot name in the drain phase, a pool that does not close or a cancellation after it. */
  lemma {:induction false} DiesWhenKilled<T>(c: Config, events: seq<Event<T>>, place: Place)
    ensures Run(c, events).phase == Crashed(place) <==> Ever(c, events, Killing(place))
    decreases |events|
  {
    if events != [] {
      var before, e := events[..|events| - 1], events[|events| - 1];
      RunKeeps(c, before);
      StepKills(c, Run(c, before), e, place);
      DiesWhenKilled(c, before, place);
    }
  }

  /** What a dead worker leaves: before the loop, every item untouched in the queue; in the drain phase, the unsettled
      rest of the last batch besides what came later; after it, only what came later. */
  lemma DeadLeaveQueued<T>(c: Config, events: seq<Event<T>>)
    requires Run(c, events).phase.Crashed?
    ensures var s := Run(c, events);
            match s.phase.place
            case AtStart => Log(s) == [] && s.queue == s.accepted
            case InDrain =>
              && s.drained <= |s.accepted| && s.queue == s.accepted[s.drained..]
              && Items(Settled(s)) + Unsettled(s) == s.accepted[..s.drained]
            case AtClose =>
              && s.drained <= |s.accepted| && s.queue == s.accepted[s.drained..]
              && Items(Settled(s)) == s.accepted[..s.drained]
  {
    RunKeeps(c, events);
    var s := Run(c, events);
    match s.phase.place
    case AtStart =>
      InvConserves(c, s);
    case InDrain => DoneIsAll(c, s);
    case AtClose =>
      DoneIsAll(c, s);
      assert Unsettled(s) == [];
  }

  /** These fates only. */
  predicate Only<T(==)>(fates: set<Fate>, entries: seq<Entry<T>>) {
    forall i :: 0 <= i < |entries| ==> entries[i].fate in fates
  }

  predicate LogsOnly<T(==)>(fates: set<Fate>, s: State<T>) {
    Only(fates, s.history) && Only(fates, s.interrupted) && Only(fates, s.pass)
  }

  /** The fates that an event can bring about. */
  predicate Brings<T>(e: Event<T>, fates: set<Fate>) {
    && Written in fates
    && (e.InsertFailed? ==> (if e.nameable then Dropped in fates else Discarded in fates))
  }

  lemma StepFates<T>(c: Config, s: State<T>, e: Event<T>, fates: set<Fate>)
    requires LogsOnly(fates, s) && Brings(e, fates)
    ensures LogsOnly(fates, Step(c, s, e))
  {
  }

  /** Items are dropped only when an insert fails, and thrown away only when naming an item fails. */
  lemma {:induction false} LossNeedsAFailure<T>(c: Config, events: seq<Event<T>>, fates: set<Fate>)
    requires forall e :: e in events ==> Brings(e, fates)
    requires Written in fates
    ensures Only(fates, Log(Run(c, events)))
    ensures LogsOnly(fates, Run(c, events))
    decreases |events|
  {
    if events != [] {
      var before := events[..|events| - 1];
      LossNeedsAFailure(c, before, fates);
      StepFates(c, Run(c, before), events[|events| - 1], fates);
    }
  }

  // ---------- how a batch is filled ----------

  /** What the queue delivers begins a batch, which takes along everything that is ready up to its size, in order; the
      rest stays queued, and the batch is flushed. */
  lemma BatchFillsUp<T>(c: Config, s: State<T>)
    requires s.phase.Waiting? && s.batch == [] && s.queue != []
    ensures var s' := Step(c, s, Got);
            var n := if c.batchSize <= 1 then 1 else if c.batchSize <= |s.queue| then c.batchSize else |s.queue|;
            s'.batch == s.queue[..n] && s'.queue == s.queue[n..] && s'.phase == Flushing(0)
    ensures var s' := Step(c, s, TimedOut);
            c.batchSize > 0 ==>
              var n := if c.batchSize <= |s.queue| then c.batchSize else |s.queue|;
              s'.batch == s.queue[..n] && s'.queue == s.queue[n..] && s'.phase == Flushing(0)
  {
  }

  /** Three failed attempts, or one that fails for good, lead to single inserts; a pause lies between two attempts. */
  lemma AttemptsAreThree<T>(c: Config, s: State<T>, attempt: nat)
    ensures s.phase == Flushing(attempt) ==> Step(c, s, FlushTransient) == s.(phase := Sleeping(attempt))
    ensures s.phase == Flushing(attempt) ==> Step(c, s, FlushFatal) == s.(phase := Inserting)
    ensures s.phase == Sleeping(attempt) ==>
              Step(c, s, Slept) == s.(phase := if attempt < 2 then Flushing(attempt + 1) else Inserting)
  {
  }

  // ---------- shutting down ends ----------

  /** An event in which the worker itself moves on. */
  predicate IsOwn<T>(e: Event<T>) { !e.Put? && !e.Shutdown? }

  /** Steps left in a pass. */
  function PassSteps<T>(s: State<T>): int {
    match s.phase
    case Flushing(n) => |s.batch| + 1 + 2 * (MAX_RETRIES - n)
    case Sleeping(n) => |s.batch| + 2 * (MAX_RETRIES - n)
    case Inserting => |s.batch| - |s.pass|
    case _ => 0
  }

  /** More steps than a worker that is shutting down can still take, one cancellation included, however many items
      arrive meanwhile. */
  function Budget<T>(c: Config, s: State<T>): int {
    match s.phase
    case Starting => c.capacity + 9
    case Waiting => 2 * Room(c) + c.capacity + 17
    case Recovering => c.capacity + 9
    case Closing => 1
    case Stopped => 0
    case Crashed(_) => 0
    case _ => if s.draining then PassSteps(s) + 1 else PassSteps(s) + |s.batch| + c.capacity + 9
  }

  lemma BudgetOfDrain<T>(c: Config, s: State<T>)
    requires |s.queue| <= c.capacity
    ensures 0 <= Budget(c, Drain(s)) <= |s.batch| + c.capacity + 8
  {
  }

  lemma BudgetOfPassDone<T>(c: Config, s: State<T>)
    requires s.shutdown && |s.queue| <= c.capacity
    ensures 0 <= Budget(c, PassDone(s)) <= if s.draining then 1 else c.capacity + 8
  {
    if !s.draining {
      BudgetOfDrain(c, s.(history := s.history + s.pass, pass := [], batch := []));
    }
  }

  lemma BudgetOfFill<T>(c: Config, s: State<T>)
    requires s.shutdown && !s.draining && |s.batch| <= 1 && |s.queue| <= c.capacity
    ensures 0 <= Budget(c, Fill(c, s)) <= 2 * Room(c) + c.capacity + 16
  {
    BudgetOfDrain(c, s);
  }

  lemma BudgetOfInsert<T>(c: Config, s: State<T>, fate: Fate)
    requires Shape(c, s) && s.shutdown && s.phase.Inserting?
    ensures 0 <= Budget(c, Insert(s, fate)) < Budget(c, s)
  {
    BudgetOfPassDone(c, s.(pass := s.pass + [Entry(s.batch[|s.pass|], fate)]));
  }

  lemma BudgetOfCancel<T>(c: Config, s: State<T>, landed: bool)
    requires Shape(c, s) && Cancelled(s, landed) != s
    ensures 0 <= Budget(c, Cancelled(s, landed)) < Budget(c, s)
  {
    BudgetOfDrain(c, s.(interrupted := if landed then Landed(s) else s.pass, pass := []));
  }

  lemma StaysShutDown<T>(c: Config, s: State<T>, e: Event<T>)
    requires s.shutdown
    ensures Step(c, s, e).shutdown
  {
  }

  lemma BudgetOfGot<T>(c: Config, s: State<T>)
    requires Shape(c, s) && s.shutdown && s.phase.Waiting? && s.queue != []
    ensures 0 <= Budget(c, Step(c, s, Got)) < Budget(c, s)
  {
    BudgetOfFill(c, s.(batch := s.batch + [s.queue[0]], queue := s.queue[1..]));
  }

  lemma BudgetOfFlush<T>(c: Config, s: State<T>, e: Event<T>)
    requires Shape(c, s) && s.shutdown && s.phase.Flushing? && (e.FlushOk? || e.FlushTransient? || e.FlushFatal?)
    ensures 0 <= Budget(c, Step(c, s, e)) < Budget(c, s)
  {
    if e.FlushOk? {
      BudgetOfPassDone(c, s.(pass := WithFate(s.batch, Written)));
    }
  }

  lemma BudgetOfRaise<T>(c: Config, s: State<T>)
    requires Shape(c, s) && s.phase.Inserting?
    ensures 0 <= Budget(c, PassRaised(s)) < Budget(c, s)
  {
  }

  lemma BudgetOfSleep<T>(c: Config, s: State<T>)
    requires Shape(c, s) && s.shutdown && (s.phase.Sleeping? || s.phase.Recovering?)
    ensures 0 <= Budget(c, Step(c, s, Slept)) < Budget(c, s)
  {
    if s.phase.Recovering? {
      BudgetOfDrain(c, s);
    }
  }

  lemma BudgetOfPool<T>(c: Config, s: State<T>, e: Event<T>)
    requires Shape(c, s) && s.shutdown && (e.PoolReady? || e.PoolFailed? || e.Closed? || e.CloseFailed?)
    ensures 0 <= Budget(c, Step(c, s, e)) <= Budget(c, s)
    ensures Step(c, s, e) != s ==> Budget(c, Step(c, s, e)) < Budget(c, s)
  {
    BudgetIsNat(c, s);
    if e.PoolReady? && s.phase.Starting? {
      BudgetOfDrain(c, s);
    }
  }

  lemma BudgetIsNat<T>(c: Config, s: State<T>)
    requires Shape(c, s)
    ensures 0 <= Budget(c, s) <= 2 * Room(c) + c.capacity + 17
  {
  }

  lemma OthersKeepBudget<T>(c: Config, s: State<T>, e: Event<T>)
    requires !IsOwn(e)
    ensures Budget(c, Step(c, s, e)) == Budget(c, s)
  {
  }

  /** Once shut down, every step the worker takes brings it nearer to its end, and nothing takes it back. */
  lemma BudgetFalls<T>(c: Config, s: State<T>, e: Event<T>)
    requires Shape(c, s) && s.shutdown
    ensures 0 <= Budget(c, Step(c, s, e)) <= Budget(c, s)
    ensures IsOwn(e) && Step(c, s, e) != s ==> Budget(c, Step(c, s, e)) < Budget(c, s)
  {
    BudgetIsNat(c, s);
    if !IsOwn(e) {
      OthersKeepBudget(c, s, e);
    } else if Step(c, s, e) != s {
      match e
      case Cancel(landed) => BudgetOfCancel(c, s, landed);
      case Slept => BudgetOfSleep(c, s);
      case InsertFailed(nameable) => if nameable { BudgetOfInsert(c, s, Dropped); } else { BudgetOfRaise(c, s); }
      case InsertOk => BudgetOfInsert(c, s, Written);
      case TimedOut => BudgetOfFill(c, s);
      case Got => BudgetOfGot(c, s);
      case FlushOk => BudgetOfFlush(c, s, e);
      case FlushTransient => BudgetOfFlush(c, s, e);
      case FlushFatal => BudgetOfFlush(c, s, e);
      case _ => BudgetOfPool(c, s, e);
    }
  }

  /** As long as it has not ended, some step other than a cancellation is open to it. */
  lemma SomeStepIsOpen<T>(c: Config, s: State<T>) returns (e: Event<T>)
    requires Inv(c, s) && s.shutdown && !s.phase.Stopped? && !s.phase.Crashed?
    ensures IsOwn(e) && !e.Cancel? && Step(c, s, e) != s
  {
    match s.phase
    case Starting => return PoolReady;
    case Waiting => return TimedOut;
    case Flushing(_) => return FlushTransient;
    case Sleeping(_) => return Slept;
    case Recovering => return Slept;
    case Inserting => return InsertOk;
    case Closing => return Closed;
  }

  /** How often the worker itself moves on while these events happen. */
  function OwnSteps<T(==)>(c: Config, s: State<T>, events: seq<Event<T>>): nat
    decreases |events|
  {
    if events == [] then 0
    else
      var s' := Step(c, s, events[0]);
      (if IsOwn(events[0]) && s' != s then 1 else 0) + OwnSteps(c, s', events[1..])
  }

  /** From its shutdown on, however its awaits end and whatever producers put into the queue meanwhile, a worker takes
      no more steps than batch size and capacity allow. */
  lemma {:induction false} ShutdownEnds<T>(c: Config, s: State<T>, events: seq<Event<T>>)
    requires Shape(c, s) && s.shutdown
    ensures OwnSteps(c, s, events) <= Budget(c, s) <= 2 * Room(c) + c.capacity + 17
    decreases |events|
  {
    BudgetIsNat(c, s);
    if events != [] {
      var e := events[0];
      StepShape(c, s, e);
      StaysShutDown(c, s, e);
      BudgetFalls(c, s, e);
      ShutdownEnds(c, Step(c, s, e), events[1..]);
    }
  }

  // ---------- what a cancellation can cost ----------

  lemma RunSnoc<T>(c: Config, events: seq<Event<T>>, e: Event<T>)
    ensures Run(c, events + [e]) == Step(c, Run(c, events), e)
  {
  }

  /** Two items, the first of them inserted singly. */
  function HalfInserted<T>(x: T, y: T): State<T> {
    State([x, y], [], [x, y], [], [], [Entry(x, Written)], Inserting, false, false, 0)
  }

  lemma HalfInsertedIsReachable<T>(c: Config, x: T, y: T) returns (events: seq<Event<T>>)
    requires c.capacity >= 2 && c.batchSize >= 2
    ensures Run(c, events) == HalfInserted(x, y)
  {
    var e0: seq<Event<T>> := [];
    RunSnoc(c, e0, PoolReady);
    var e1 := e0 + [PoolReady];
    RunSnoc(c, e1, Put(x));
    RunSnoc(c, e1 + [Put(x)], Put(y));
    var e2 := e1 + [Put(x)] + [Put(y)];
    assert Run(c, e2) == State([x, y], [x, y], [], [], [], [], Waiting, false, false, 0);
    RunSnoc(c, e2, Got);
    var e3 := e2 + [Got];
    assert Run(c, e3) == State([x, y], [], [x, y], [], [], [], Flushing(0), false, false, 0);
    RunSnoc(c, e3, FlushFatal);
    RunSnoc(c, e3 + [FlushFatal], InsertOk);
    events := e3 + [FlushFatal] + [InsertOk];
  }

  /** Cancelled between two single inserts, the worker writes the first item again. */
  lemma InterruptedItemIsRewritten<T>(c: Config, x: T, y: T) returns (events: seq<Event<T>>)
    requires c.capacity >= 2 && c.batchSize >= 2
    ensures var s := Run(c, events);
            s.phase.Stopped? && s.accepted == [x, y] && Items(Log(s)) == [x, x, y]
  {
    var before := HalfInsertedIsReachable(c, x, y);
    RunSnoc(c, before, Cancel(false));
    RunSnoc(c, before + [Cancel(false)], FlushOk);
    RunSnoc(c, before + [Cancel(false)] + [FlushOk], Closed);
    events := before + [Cancel(false)] + [FlushOk] + [Closed];
    RewritesFirst(c, x, y);
  }

  lemma RewritesFirst<T>(c: Config, x: T, y: T)
    ensures var s := Step(c, Step(c, Step(c, HalfInserted(x, y), Cancel(false)), FlushOk), Closed);
            s.phase.Stopped? && s.accepted == [x, y] && Items(Log(s)) == [x, x, y]
  {
    var s := Step(c, HalfInserted(x, y), Cancel(false));
    assert s == State([x, y], [], [x, y], [], [Entry(x, Written)], [], Flushing(0), true, false, 2);
    assert WithFate([x, y], Written) == [Entry(x, Written), Entry(y, Written)];
    assert Log(Step(c, Step(c, s, FlushOk), Closed)) == [Entry(x, Written), Entry(x, Written), Entry(y, Written)];
  }

  // ---------- the retry loop ----------

  datatype Outcome = Success | Transient | Fatal

  datatype InsertOutcome = Inserted | Failed(nameable: bool)

  /** Some attempt succeeds, and the ones before it fail only transiently. */
  predicate FlushSucceeds(flush: nat -> Outcome) {
    exists n: nat :: n < MAX_RETRIES && FirstSuccess(flush, n)
  }

  predicate FirstSuccess(flush: nat -> Outcome, n: nat) {
    flush(n).Success? && forall m: nat :: m < n ==> flush(m).Transient?
  }

  /** The entries that the single inserts leave. */
  predicate InsertedSingly<T(==)>(batch: seq<T>, insert: nat -> InsertOutcome, entries: seq<Entry<T>>) {
    && |entries| <= |batch|
    && forall k: nat :: k < |entries| ==>
         insert(k) != Failed(false) && entries[k] == Entry(batch[k], if insert(k).Inserted? then Written else Dropped)
  }

  /** `flush(n)` and `insert(k)` say how the n-th batch flush and the insert of item `k` end. */
  method FlushWithRetry<T>(batch: seq<T>, flush: nat -> Outcome, insert: nat -> InsertOutcome)
    returns (entries: seq<Entry<T>>, raised: bool)
    ensures FlushSucceeds(flush) ==> entries == WithFate(batch, Written) && !raised
    ensures !FlushSucceeds(flush) ==>
              && InsertedSingly(batch, insert, entries)
              && (if raised then |entries| < |batch| && insert(|entries|) == Failed(false) else |entries| == |batch|)
  {
    for attempt := 0 to MAX_RETRIES
      invariant forall m: nat :: m < attempt ==> flush(m).Transient?
    {
      match flush(attempt)
      case Success =>
        assert FirstSuccess(flush, attempt);
        return WithFate(batch, Written), false;
      case Transient =>
      case Fatal =>
        assert forall n: nat :: FirstSuccess(flush, n) ==> n <= attempt;
        break;
    }
    entries := [];
    for k := 0 to |batch|
      invariant |entries| == k && InsertedSingly(batch, insert, entries)
    {
      match insert(k)
      case Inserted => entries := entries + [Entry(batch[k], Written)];
      case Failed(nameable) =>
        if !nameable {
          return entries, true;
        }
        entries := entries + [Entry(batch[k], Dropped)];
    }
    raised := false;
  }

  // ---------- the retry loop is what the machine does when nothing intervenes ----------

  function RunFrom<T>(c: Config, s: State<T>, events: seq<Event<T>>): State<T>
    decreases |events|
  {
    if events == [] then s else RunFrom(c, Step(c, s, events[0]), events[1..])
  }

  function FlushEvents<T>(flush: nat -> Outcome, attempt: nat): seq<Event<T>>
    decreases MAX_RETRIES - attempt
  {
    if attempt >= MAX_RETRIES then []
    else match flush(attempt)
         case Success => [FlushOk]
         case Fatal => [FlushFatal]
         case Transient => [FlushTransient, Slept] + FlushEvents(flush, attempt + 1)
  }

  function InsertEvents<T>(insert: nat -> InsertOutcome, k: nat, n: nat): seq<Event<T>>
    decreases n - k
  {
    if k >= n then []
    else match insert(k)
         case Inserted => [InsertOk] + InsertEvents(insert, k + 1, n)
         case Failed(nameable) =>
           [InsertFailed(nameable)] + if nameable then InsertEvents(insert, k + 1, n) else []
  }

  lemma RunFromCons<T>(c: Config, s: State<T>, e: Event<T>, events: seq<Event<T>>)
    ensures RunFrom(c, s, [e] + events) == RunFrom(c, Step(c, s, e), events)
  {
  }

  lemma {:induction false} MachineFlushes<T>(c: Config, s: State<T>, flush: nat -> Outcome, attempt: nat)
    requires attempt < MAX_RETRIES && s.phase == Flushing(attempt)
    requires forall m: nat :: m < attempt ==> flush(m).Transient?
    ensures RunFrom(c, s, FlushEvents(flush, attempt))
         == if FlushSucceeds(flush) then PassDone(s.(pass := WithFate(s.batch, Written))) else s.(phase := Inserting)
    decreases MAX_RETRIES - attempt
  {
    match flush(attempt)
    case Success =>
      assert FirstSuccess(flush, attempt);
      RunFromCons(c, s, FlushOk, []);
    case Fatal =>
      assert forall n: nat :: FirstSuccess(flush, n) ==> n <= attempt;
      RunFromCons(c, s, FlushFatal, []);
    case Transient =>
      var rest: seq<Event<T>> := FlushEvents(flush, attempt + 1);
      var s' := Step(c, Step(c, s, FlushTransient), Slept);
      RunFromCons(c, s, FlushTransient, [Slept] + rest);
      RunFromCons(c, Step(c, s, FlushTransient), Slept, rest);
      assert [FlushTransient, Slept] + rest == [FlushTransient] + ([Slept] + rest);
      if attempt + 1 < MAX_RETRIES {
        MachineFlushes(c, s', flush, attempt + 1);
      }
  }

  /** How the single inserts end, from item `k` on, in terms of the entries and the exception the method reports. */
  lemma {:induction false} MachineInserts<T>(c: Config, s: State<T>, insert: nat -> InsertOutcome,
                                             entries: seq<Entry<T>>, raised: bool, k: nat)
    requires s.phase == Inserting && InsertedSingly(s.batch, insert, entries)
    requires if raised then |entries| < |s.batch| && insert(|entries|) == Failed(false) else |entries| == |s.batch|
    requires k <= |entries| && k < |s.batch| && s.pass == entries[..k]
    ensures RunFrom(c, s, InsertEvents(insert, k, |s.batch|))
         == if raised then PassRaised(s.(pass := entries)) else PassDone(s.(pass := entries))
    decreases |entries| - k
  {
    var n := |s.batch|;
    if k == |entries| {
      RunFromCons(c, s, InsertFailed(false), []);
      assert entries[..k] == entries;
    } else {
      var e := if insert(k).Inserted? then InsertOk else InsertFailed(true);
      RunFromCons(c, s, e, InsertEvents(insert, k + 1, n));
      TakeOneMore(entries, k);
      var s' := s.(pass := entries[..k + 1]);
      if k + 1 == n {
        assert entries[..k + 1] == entries;
      } else {
        MachineInserts(c, s', insert, entries, raised, k + 1);
      }
    }
  }
}
