/**
 A ledger of operations whose every step is guarded by the state and replay
 validators alone, and what holds over all of its runs.
 */
module OperationLedger {
  import opened Basics
  import opened GrantWire
  import opened OperationState
  import opened Replay

  /** An operation is live until its terminal receipt is compacted. */
  datatype Entry =
    | Live(key: ReplayKey, requestDigest: seq<byte>, state: State, revision: int64)
    | Compacted(tombstone: Tombstone)

  /** Operations by UUID. */
  type Ledger = map<GoString, Entry>

  /** The receipt of an entry; for a live one, the tombstone it would leave. */
  function Receipt(e: Entry): Tombstone {
    match e
    case Live(key, requestDigest, state, revision) =>
      Tombstone(key.operationId, key.capabilityId, key.operation, key.ownerId, key.accountGeneration,
                requestDigest, key.rootRequestDigest, state, revision)
    case Compacted(t) => t
  }

  datatype Event =
    | Start(key: ReplayKey, digest: seq<byte>)
    | Transition(id: GoString, to: State, revision: int64)
    | Reconcile(id: GoString, to: State, revision: int64)
    | Update(id: GoString, to: State, digest: seq<byte>, revision: int64)
    | Restart
    | Compact(id: GoString)

  datatype Outcome =
    | Admitted
    | Replayed(receipt: Tombstone)
    | Conflict
    | Missing
    | Refused
    | Done

  /** Does the entry's fence let a start with this key replay? */
  predicate Fence(e: Entry, requested: ReplayKey) {
    match e
    case Live(key, _, _, _) => KeyMatches(key, requested)
    case Compacted(t) => ReplayFence(t, requested)
  }

  /** Record an accepted state; a terminal receipt is never touched again. */
  function Record(e: Entry, to: State, revision: int64): Entry {
    if e.Live? && !Terminal(e.state) then e.(state := to, revision := revision) else e
  }

  function Restarted(e: Entry): Entry {
    if e.Live? && Recover(e.state).Ok? then e.(state := Recover(e.state).value) else e
  }

  /** The guard of an event that addresses the operation with receipt `r`. */
  predicate Permits(r: Tombstone, ev: Event) {
    match ev
    case Transition(_, to, _) => ValidateTransition(r.state, to).None?
    case Reconcile(_, to, _) => ValidateReconcile(r.state, to).None?
    case Update(_, to, digest, _) => ValidateTerminalUpdate(r.state, to, r.requestDigest, digest).None?
    case _ => false
  }

  /**
   The validators alone fence the state: what they permit on a terminal receipt
   repeats its state. That the revision stays too is `Record`'s doing.
   */
  lemma PermittedOnTerminal(r: Tombstone, ev: Event)
    requires Terminal(r.state) && Permits(r, ev)
    ensures (ev.Transition? || ev.Update?) && ev.to == r.state
  {
  }

  /** One step of the ledger. */
  function Step(l: Ledger, ev: Event): (Ledger, Outcome) {
    match ev
    case Start(key, digest) =>
      if !KeyValid(key) then (l, Conflict)
      else if key.operationId !in l then
        (l[key.operationId := Live(key, digest, Pending, 0)], Admitted)
      else if Fence(l[key.operationId], key) then (l, Replayed(Receipt(l[key.operationId])))
      else (l, Conflict)
    case Restart => (map id | id in l :: Restarted(l[id]), Done)
    case Compact(id) =>
      if id in l && Terminal(Receipt(l[id]).state) then (l[id := Compacted(Receipt(l[id]))], Done)
      else (l, Refused)
    case Transition(_, _, _) => Change(l, ev)
    case Reconcile(_, _, _) => Change(l, ev)
    case Update(_, _, _, _) => Change(l, ev)
  }

  function Change(l: Ledger, ev: Event): (Ledger, Outcome)
    requires ev.Transition? || ev.Reconcile? || ev.Update?
  {
    if ev.id !in l then (l, Missing)
    else if !Permits(Receipt(l[ev.id]), ev) then (l, Refused)
    else (l[ev.id := Record(l[ev.id], ev.to, ev.revision)], Done)
  }

  function Run(l: Ledger, events: seq<Event>): Ledger
    decreases |events|
  {
    if events == [] then l else Run(Step(l, events[0]).0, events[1..])
  }

  // ---------- invariant ----------

  predicate EntrySound(id: GoString, e: Entry) {
    && StoredKey(Receipt(e)).operationId == id
    && KeyValid(StoredKey(Receipt(e)))
    && !Receipt(e).state.Unspecified?
    && (e.Compacted? ==> Terminal(e.tombstone.state))
  }

  predicate Sound(l: Ledger) {
    forall id :: id in l ==> EntrySound(id, l[id])
  }

  /** The state of an operation; one that was never admitted is unspecified. */
  function StateOf(l: Ledger, id: GoString): State {
    if id in l then Receipt(l[id]).state else Unspecified
  }

  lemma StepSound(l: Ledger, ev: Event)
    requires Sound(l)
    ensures Sound(Step(l, ev).0) && l.Keys <= Step(l, ev).0.Keys
  {
    hide KeyValid, ValidateTransition, ValidateReconcile, ValidateTerminalUpdate, KeyMatches, ReplayFence, Permits;
    if (ev.Transition? || ev.Reconcile? || ev.Update?) && ev.id in l && Permits(Receipt(l[ev.id]), ev) {
      PermittedIsKnown(Receipt(l[ev.id]), ev);
    }
  }

  /** No validator permits an admitted operation to lose its state. */
  lemma PermittedIsKnown(r: Tombstone, ev: Event)
    requires !r.state.Unspecified? && Permits(r, ev)
    ensures ev.Transition? || ev.Reconcile? || ev.Update?
    ensures !ev.to.Unspecified?
  {
  }

  /**
   What one step does to one operation: its key stays, its state stays or
   advances as some validator allows, and a terminal receipt stays whole.
   */
  lemma StepAdvances(l: Ledger, ev: Event, id: GoString)
    requires Sound(l)
    ensures var next := Step(l, ev).0;
            && (StateOf(next, id) == StateOf(l, id) || Advances(StateOf(l, id), StateOf(next, id)))
            && (id in l ==> id in next && StoredKey(Receipt(next[id])) == StoredKey(Receipt(l[id])))
            && (id in l && Terminal(StateOf(l, id)) ==> Receipt(next[id]) == Receipt(l[id]))
  {
    hide KeyValid, KeyMatches, ReplayFence, Sound;
    StepSound(l, ev);
    if ev.Start? && id !in l && id in Step(l, ev).0 {
      assert ValidateTransition(Unspecified, Pending).None?;
    }
  }

  // ---------- whole runs ----------

  /** How many steps of a run change the state of `id`. */
  function Changes(l: Ledger, events: seq<Event>, id: GoString): nat
    decreases |events|
  {
    if events == [] then 0
    else
      var next := Step(l, events[0]).0;
      (if StateOf(next, id) != StateOf(l, id) then 1 else 0) + Changes(next, events[1..], id)
  }

  predicate Enters(from: State, to: State) {
    to.Running? && !from.Running?
  }

  /** How many steps of a run put `id` into the running state. */
  function Executions(l: Ledger, events: seq<Event>, id: GoString): nat
    decreases |events|
  {
    if events == [] then 0
    else
      var next := Step(l, events[0]).0;
      (if Enters(StateOf(l, id), StateOf(next, id)) then 1 else 0) + Executions(next, events[1..], id)
  }

  /** Before it runs: the states from which an execution may still begin. */
  predicate NotYetRun(s: State) {
    s.Unspecified? || s.Pending?
  }

  /** One step costs rank when it changes the state, and begins an execution only before the first. */
  lemma StepCost(l: Ledger, ev: Event, id: GoString)
    requires Sound(l)
    ensures var (s, t) := (StateOf(l, id), StateOf(Step(l, ev).0, id));
            && (if t != s then 1 else 0) + Rank(t) <= Rank(s)
            && (Enters(s, t) ==> NotYetRun(s))
            && (t.Running? ==> !NotYetRun(t))
            && (NotYetRun(t) ==> NotYetRun(s))
            && (Terminal(s) ==> t == s)
  {
    hide Step, Sound, Receipt, StoredKey, Advances, StateOf;
    StepAdvances(l, ev, id);
    var s, t := StateOf(l, id), StateOf(Step(l, ev).0, id);
    if s != t {
      AdvanceRank(s, t);
    }
  }

  lemma {:induction false} RunRank(l: Ledger, events: seq<Event>, id: GoString)
    requires Sound(l)
    ensures Changes(l, events, id) + Rank(StateOf(Run(l, events), id)) <= Rank(StateOf(l, id))
    decreases |events|
  {
    if events != [] {
      hide Step, Sound, StateOf, NotYetRun, Rank, Terminal, Enters;
      StepSound(l, events[0]);
      StepCost(l, events[0], id);
      RunRank(Step(l, events[0]).0, events[1..], id);
    }
  }

  lemma {:induction false} RunExecutes(l: Ledger, events: seq<Event>, id: GoString)
    requires Sound(l)
    ensures Executions(l, events, id) <= if NotYetRun(StateOf(l, id)) then 1 else 0
    decreases |events|
  {
    if events != [] {
      hide Step, Sound, StateOf, NotYetRun, Rank, Terminal, Run;
      StepSound(l, events[0]);
      StepCost(l, events[0], id);
      RunExecutes(Step(l, events[0]).0, events[1..], id);
    }
  }

  /**
   Over any interleaving of starts, transitions, restarts, reconciliations,
   updates and compactions: an operation runs at most once and never after it
   was running, uncertain or terminal, and its effective changes are paid for by
   its rank, so there are at most four.
   */
  lemma RunSafety(l: Ledger, events: seq<Event>, id: GoString)
    requires Sound(l)
    ensures Executions(l, events, id) <= if NotYetRun(StateOf(l, id)) then 1 else 0
    ensures Changes(l, events, id) + Rank(StateOf(Run(l, events), id)) <= Rank(StateOf(l, id)) <= 4
  {
    hide Run, Changes, Executions, StateOf;
    RunRank(l, events, id);
    RunExecutes(l, events, id);
    RankAtMostFour(StateOf(l, id));
  }

  lemma RankAtMostFour(s: State)
    ensures Rank(s) <= 4
  {
  }

  /** Over any run an operation's key is bound for good, and a terminal receipt never changes. */
  lemma {:induction false} RunKeeps(l: Ledger, events: seq<Event>, id: GoString)
    requires Sound(l)
    ensures Sound(Run(l, events))
    ensures id in l ==>
              id in Run(l, events) && StoredKey(Receipt(Run(l, events)[id])) == StoredKey(Receipt(l[id]))
    ensures id in l && Terminal(StateOf(l, id)) ==> Receipt(Run(l, events)[id]) == Receipt(l[id])
    decreases |events|
  {
    if events != [] {
      hide Step, Sound, Receipt, StoredKey, Terminal;
      StepSound(l, events[0]);
      StepAdvances(l, events[0], id);
      RunKeeps(Step(l, events[0]).0, events[1..], id);
    }
  }

  // ---------- restarts ----------

  /** After a restart no admitted operation is pending or running; what was in flight is uncertain. */
  lemma RestartFences(l: Ledger, id: GoString)
    requires Sound(l) && id in l
    ensures var s, t := StateOf(l, id), StateOf(Step(l, Restart).0, id);
            && !t.Pending? && !t.Running? && !t.Unspecified?
            && t == if s.Pending? || s.Running? then Uncertain else s
  {
    hide KeyValid;
    assert EntrySound(id, l[id]);
    RecoverFences(StateOf(l, id));
  }

  /**
   So an operation that was admitted before a restart never begins to run after
   it, whatever follows, and changes its state at most once more.
   */
  lemma NothingRunsAfterRestart(l: Ledger, events: seq<Event>, id: GoString)
    requires Sound(l) && id in l
    ensures var restarted := Step(l, Restart).0;
            && Executions(restarted, events, id) == 0
            && Changes(restarted, events, id) <= 1
  {
    hide Step, Sound, StateOf, Changes, Executions, Run;
    StepSound(l, Restart);
    RestartFences(l, id);
    RunSafety(Step(l, Restart).0, events, id);
  }

  /** A valid key that is not in the ledger is admitted as pending work; other operations are untouched. */
  lemma AdmissionStarts(l: Ledger, key: ReplayKey, digest: seq<byte>)
    requires Sound(l) && key.operationId !in l
    ensures var (next, outcome) := Step(l, Start(key, digest));
            && (outcome == Admitted <==> KeyValid(key)) && (outcome == Conflict <==> !KeyValid(key))
            && (outcome == Admitted ==> next == l[key.operationId := Live(key, digest, Pending, 0)])
            && (outcome == Conflict ==> next == l)
  {
    hide KeyValid;
  }

  /** A permitted change records its state and revision; repeating a terminal receipt, or a refusal, records nothing. */
  lemma ChangeRecorded(l: Ledger, ev: Event)
    requires Sound(l) && (ev.Transition? || ev.Reconcile? || ev.Update?)
    ensures var (next, outcome) := Step(l, ev);
            && (outcome == Missing <==> ev.id !in l)
            && (outcome != Done || Terminal(StateOf(l, ev.id)) ==> next == l)
            && (outcome == Done && !Terminal(StateOf(l, ev.id)) ==>
                  && ev.id in next && next == l[ev.id := next[ev.id]]
                  && Receipt(next[ev.id]) == Receipt(l[ev.id]).(state := ev.to, revision := ev.revision))
  {
    hide KeyValid, Permits;
    if ev.id in l {
      assert EntrySound(ev.id, l[ev.id]);
    }
  }

  /** Compaction keeps the receipt of a terminal operation and drops the rest; other operations are untouched. */
  lemma CompactionKeepsReceipt(l: Ledger, id: GoString)
    ensures var (next, outcome) := Step(l, Compact(id));
            if id in l && Terminal(StateOf(l, id)) then outcome == Done && next == l[id := Compacted(Receipt(l[id]))]
            else outcome == Refused && next == l
  {
  }

  // ---------- replay decisions ----------

  /** Whatever happened since an operation was admitted, a later start replays exactly under its key. */
  lemma StartDecision(l: Ledger, events: seq<Event>, key: ReplayKey, digest: seq<byte>)
    requires Sound(l) && key.operationId in l
    ensures var later := Run(l, events);
            var (after, outcome) := Step(later, Start(key, digest));
            && after == later
            && key.operationId in later
            && outcome == if KeyValid(key) && key == StoredKey(Receipt(l[key.operationId]))
                          then Replayed(Receipt(later[key.operationId])) else Conflict
    ensures Terminal(StateOf(l, key.operationId)) ==>
              Receipt(Run(l, events)[key.operationId]) == Receipt(l[key.operationId])
  {
    hide KeyValid, Run;
    RunKeeps(l, events, key.operationId);
    var e := Run(l, events)[key.operationId];
    assert EntrySound(key.operationId, e);
    if e.Compacted? {
      FencePreserved(e.tombstone, key);
    }
  }

  /**
   However often the root grant of an operation is renewed, and whatever happens
   in between, a start under a renewed grant replays the first one.
   */
  lemma RenewedStartReplays(l: Ledger, chain: seq<GrantClaims>, i: nat, j: nat, events: seq<Event>,
                            digest: seq<byte>, again: seq<byte>)
    requires Sound(l) && RenewalChain(chain) && i < |chain| && j < |chain|
    requires chain[i].rootOperationId !in l
    ensures var (admitted, outcome) := Step(l, Start(KeyOf(chain[i]), digest));
            && outcome == Admitted
            && var later := Run(admitted, events);
               && chain[i].rootOperationId in later
               && Step(later, Start(KeyOf(chain[j]), again))
                  == (later, Replayed(Receipt(later[chain[i].rootOperationId])))
  {
    hide KeyValid, Run, RenewalChain, Sound;
    ChainKeepsKey(chain, i, j);
    var admitted := Step(l, Start(KeyOf(chain[i]), digest)).0;
    StepSound(l, Start(KeyOf(chain[i]), digest));
    StartDecision(admitted, events, KeyOf(chain[j]), again);
    assert StoredKey(Receipt(admitted[chain[i].rootOperationId])) == KeyOf(chain[i]);
  }

  // ---------- compaction is invisible ----------

  /** Two ledgers with the same operations and the same receipts. */
  predicate SameReceipts(a: Ledger, b: Ledger) {
    a.Keys == b.Keys && forall id :: id in a ==> Receipt(a[id]) == Receipt(b[id])
  }

  lemma FenceByReceipt(id: GoString, a: Entry, b: Entry, requested: ReplayKey)
    requires EntrySound(id, a) && EntrySound(id, b) && Receipt(a) == Receipt(b)
    ensures Fence(a, requested) == Fence(b, requested)
  {
    hide KeyValid;
    if a.Compacted? {
      FencePreserved(a.tombstone, requested);
    }
    if b.Compacted? {
      FencePreserved(b.tombstone, requested);
    }
  }

  lemma SameChange(id: GoString, a: Entry, b: Entry, ev: Event)
    requires EntrySound(id, a) && EntrySound(id, b) && Receipt(a) == Receipt(b)
    requires (ev.Transition? || ev.Reconcile? || ev.Update?) && Permits(Receipt(a), ev)
    ensures Receipt(Record(a, ev.to, ev.revision)) == Receipt(Record(b, ev.to, ev.revision))
  {
    hide KeyValid;
  }

  lemma SameRestart(id: GoString, a: Entry, b: Entry)
    requires EntrySound(id, a) && EntrySound(id, b) && Receipt(a) == Receipt(b)
    ensures Receipt(Restarted(a)) == Receipt(Restarted(b))
  {
    hide KeyValid;
  }

  lemma StartByReceipts(a: Ledger, b: Ledger, ev: Event)
    requires Sound(a) && Sound(b) && SameReceipts(a, b) && ev.Start?
    ensures SameReceipts(Step(a, ev).0, Step(b, ev).0) && Step(a, ev).1 == Step(b, ev).1
  {
    hide EntrySound, Fence, Receipt, KeyValid;
    var id := ev.key.operationId;
    if id in a {
      FenceByReceipt(id, a[id], b[id], ev.key);
    }
  }

  lemma RestartByReceipts(a: Ledger, b: Ledger)
    requires Sound(a) && Sound(b) && SameReceipts(a, b)
    ensures SameReceipts(Step(a, Restart).0, Step(b, Restart).0) && Step(a, Restart).1 == Step(b, Restart).1
  {
    hide EntrySound, Receipt, Restarted;
    forall id | id in a
      ensures Receipt(Restarted(a[id])) == Receipt(Restarted(b[id]))
    {
      SameRestart(id, a[id], b[id]);
    }
  }

  lemma ChangeByReceipts(a: Ledger, b: Ledger, ev: Event)
    requires Sound(a) && Sound(b) && SameReceipts(a, b)
    requires ev.Transition? || ev.Reconcile? || ev.Update?
    ensures SameReceipts(Change(a, ev).0, Change(b, ev).0) && Change(a, ev).1 == Change(b, ev).1
  {
    hide EntrySound, Receipt, Record, Permits;
    if ev.id in a && Permits(Receipt(a[ev.id]), ev) {
      SameChange(ev.id, a[ev.id], b[ev.id], ev);
    }
  }

  /** Ledgers with the same receipts answer every event alike and stay alike. */
  lemma StepByReceipts(a: Ledger, b: Ledger, ev: Event)
    requires Sound(a) && Sound(b) && SameReceipts(a, b)
    ensures SameReceipts(Step(a, ev).0, Step(b, ev).0) && Step(a, ev).1 == Step(b, ev).1
  {
    match ev
    case Start(_, _) =>
      hide Step, Sound, SameReceipts;
      StartByReceipts(a, b, ev);
    case Restart =>
      hide Step, Sound, SameReceipts;
      RestartByReceipts(a, b);
    case Compact(id) =>
      hide Sound, Receipt, Terminal;
      CompactReceipt(a, id);
      CompactReceipt(b, id);
    case _ =>
      hide Sound, SameReceipts, Change;
      ChangeByReceipts(a, b, ev);
  }

  /** Compacting changes no receipt. */
  lemma CompactReceipt(l: Ledger, id: GoString)
    ensures SameReceipts(Step(l, Compact(id)).0, l)
  {
  }

  /** What the ledger answers to the events of a run, compactions aside. */
  function Answers(l: Ledger, events: seq<Event>): seq<Outcome>
    decreases |events|
  {
    if events == [] then []
    else
      var (next, outcome) := Step(l, events[0]);
      (if events[0].Compact? then [] else [outcome]) + Answers(next, events[1..])
  }

  function WithoutCompaction(events: seq<Event>): seq<Event> {
    if events == [] then []
    else (if events[0].Compact? then [] else [events[0]]) + WithoutCompaction(events[1..])
  }

  /**
   Compaction is invisible: a run that compacts at will answers every other
   event as the run that never compacts, and ends with the same receipts.
   */
  lemma {:induction false} CompactionInvisible(a: Ledger, b: Ledger, events: seq<Event>)
    requires Sound(a) && Sound(b) && SameReceipts(a, b)
    ensures Answers(a, events) == Answers(b, WithoutCompaction(events))
    ensures SameReceipts(Run(a, events), Run(b, WithoutCompaction(events)))
    decreases |events|
  {
    if events != [] {
      hide Step, Sound, SameReceipts;
      var ev, rest := events[0], events[1..];
      StepSound(a, ev);
      if ev.Compact? {
        CompactReceipt(a, ev.id);
        SameTransitive(Step(a, ev).0, a, b);
        CompactionInvisible(Step(a, ev).0, b, rest);
        assert [] + WithoutCompaction(rest) == WithoutCompaction(rest);
        assert [] + Answers(Step(a, ev).0, rest) == Answers(Step(a, ev).0, rest);
      } else {
        StepSound(b, ev);
        StepByReceipts(a, b, ev);
        CompactionInvisible(Step(a, ev).0, Step(b, ev).0, rest);
        assert ([ev] + WithoutCompaction(rest))[1..] == WithoutCompaction(rest);
      }
    }
  }

  lemma SameTransitive(a: Ledger, b: Ledger, c: Ledger)
    requires SameReceipts(a, b) && SameReceipts(b, c)
    ensures SameReceipts(a, c)
  {
  }
}
