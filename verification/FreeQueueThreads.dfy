/** Threads that hand freed blocks to the shared queue. A step is the code between two lock
    operations, or one turn of a loop; any thread may take the next step. */
module FreeQueueThreads {
  import opened Collections
  import opened FreeQueues

  const OVERHEAD: nat := 144                    // bytes charged for a queue entry itself
  const BATCH := 4
  const WORD_SIZE := 0x1_0000_0000_0000_0000

  /** `ticket` numbers the blocks in the order they were queued; it only tells them apart. */
  datatype Entry = Entry(block: nat, size: nat, ticket: nat)

  /** A flush passes no block. */
  datatype Given = Flush | Give(block: nat, size: nat)

  datatype Pc =
    | Idle
    | Enter(given: Given, limit: nat)           // about to take the lock for the first time
    | Loop(limit: nat, taken: seq<Entry>)       // holds the lock, at the loop test
    | Release(limit: nat, taken: seq<Entry>, last: bool) // freeing a batch without the lock
    | Again(limit: nat)                         // about to take the lock again

  datatype Place = Queued | Held(t: nat) | Released

  datatype State = State(queue: seq<Entry>, total: int, lock: int, threads: map<nat, Pc>, place: seq<Place>, failed: bool)

  const NOBODY := -1

  type Int32 = x: int | -0x8000_0000 <= x < 0x8000_0000

  /** The limit is compared as an unsigned number. */
  function Unsigned(limit: Int32): (n: nat)
    ensures limit >= 0 ==> n == limit
  {
    if limit < 0 then limit + WORD_SIZE else limit
  }

  function IsFull(queue: seq<Entry>): bool {
    |queue| == QUEUE_SIZE - 1
  }

  function PcOf(s: State, t: nat): Pc {
    if t in s.threads then s.threads[t] else Idle
  }

  function SetPc(s: State, t: nat, pc: Pc): State {
    s.(threads := s.threads[t := pc])
  }

  // ---------- the steps ----------

  function Call(s: State, t: nat, given: Given, limit: nat): State {
    SetPc(s, t, Enter(given, limit))
  }

  /** Takes the lock, checks that the queue is not full, and queues the block. */
  function LockFirst(s: State, t: nat, given: Given, limit: nat): State {
    var s' := SetPc(s, t, Loop(limit, [])).(lock := t, failed := s.failed || IsFull(s.queue));
    if given.Flush? then s'
    else
      var ticket := |s.place|;
      s'.(total := s.total + given.size + OVERHEAD, queue := s.queue + [Entry(given.block, given.size, ticket)],
          place := s.place + [Queued])
  }

  /** One turn of the locked loop: pops an entry; a full batch gives the lock back. */
  function Turn(s: State, t: nat, limit: nat, taken: seq<Entry>): State {
    if s.total > limit || IsFull(s.queue) then
      if |s.queue| == 0 || |taken| >= BATCH || s.queue[0].ticket >= |s.place| then s.(failed := true)
      else
        var e := s.queue[0];
        var taken' := taken + [e];
        var s' := s.(queue := s.queue[1..], total := s.total - (e.size + OVERHEAD), place := s.place[e.ticket := Held(t)]);
        if |taken'| == BATCH then SetPc(s', t, Release(limit, taken', false)).(lock := NOBODY) else SetPc(s', t, Loop(limit, taken'))
    else SetPc(s, t, Release(limit, taken, true)).(lock := NOBODY, failed := s.failed || s.total < 0)
  }

  /** Frees the first block of the batch, or ends the batch. */
  function FreeOne(s: State, t: nat, limit: nat, taken: seq<Entry>, last: bool): State {
    if |taken| == 0 then SetPc(s, t, if last then Idle else Again(limit))
    else
      var k := taken[0].ticket;
      SetPc(s, t, Release(limit, taken[1..], last)).(
        place := if k < |s.place| then s.place[k := Released] else s.place,
        failed := s.failed || k >= |s.place| || s.place[k] != Held(t))
  }

  /** What a thread is asked to do when idle. */
  datatype Request = Request(given: Given, limit: Int32)

  function Enabled(s: State, t: nat): bool {
    var pc := PcOf(s, t);
    pc.Enter? || pc.Again? ==> s.lock == NOBODY
  }

  function Next(s: State, t: nat, r: Request): State
    requires Enabled(s, t)
  {
    match PcOf(s, t)
    case Idle => Call(s, t, r.given, Unsigned(r.limit))
    case Enter(given, limit) => LockFirst(s, t, given, limit)
    case Loop(limit, taken) => Turn(s, t, limit, taken)
    case Release(limit, taken, last) => FreeOne(s, t, limit, taken, last)
    case Again(limit) => SetPc(s, t, Loop(limit, [])).(lock := t)
  }

  // ---------- the invariant ----------

  function SizeSum(queue: seq<Entry>): nat {
    if |queue| == 0 then 0 else queue[0].size + OVERHEAD + SizeSum(queue[1..])
  }

  lemma {:induction false} SizeSumSnoc(queue: seq<Entry>, e: Entry)
    ensures SizeSum(queue + [e]) == SizeSum(queue) + e.size + OVERHEAD
  {
    if |queue| > 0 {
      SizeSumSnoc(queue[1..], e);
      assert (queue + [e])[1..] == queue[1..] + [e];
    } else {
      assert (queue + [e])[1..] == [];
    }
  }

  function Taken(pc: Pc): seq<Entry> {
    match pc
    case Loop(_, taken) => taken
    case Release(_, taken, _) => taken
    case _ => []
  }

  function Tickets(es: seq<Entry>): seq<nat> {
    if |es| == 0 then [] else [es[0].ticket] + Tickets(es[1..])
  }

  /** The queued tickets are the latest, in order; the others are held or released. */
  ghost predicate QueueOk(queue: seq<Entry>, place: seq<Place>) {
    && |queue| <= |place|
    && (forall i :: 0 <= i < |queue| ==> queue[i].ticket == |place| - |queue| + i)
    && (forall k :: 0 <= k < |place| ==> (place[k].Queued? <==> k >= |place| - |queue|))
  }

  /** A thread holds exactly the tickets that it took and has not freed, each once. */
  ghost predicate HoldsOk(pc: Pc, t: nat, place: seq<Place>) {
    && NoDup(Tickets(Taken(pc)))
    && forall k: nat :: k in Tickets(Taken(pc)) <==> k < |place| && place[k] == Held(t)
  }

  ghost predicate PcOk(s: State, t: nat) {
    var pc := PcOf(s, t);
    HoldsOk(pc, t, s.place) && (pc.Loop? <==> s.lock == t) && (pc.Loop? ==> |pc.taken| < BATCH)
  }

  ghost predicate Inv(s: State) {
    && QueueOk(s.queue, s.place) && s.total == SizeSum(s.queue) && !s.failed && s.lock >= NOBODY
    && |s.queue| < QUEUE_SIZE && (s.lock == NOBODY ==> !IsFull(s.queue))
    && (s.lock != NOBODY ==> IsFull(s.queue) ==> Taken(PcOf(s, s.lock)) == [])
    && forall t {:trigger PcOk(s, t)} :: PcOk(s, t)
  }

  ghost predicate Initial(s: State) {
    s == State([], 0, NOBODY, map[], [], false)
  }

  lemma InitialInv(s: State)
    requires Initial(s)
    ensures Inv(s)
  {
    forall t: nat ensures PcOk(s, t) {}
  }

  // ---------- every step keeps it ----------

  lemma {:induction false} TicketsSnoc(es: seq<Entry>, e: Entry)
    ensures Tickets(es + [e]) == Tickets(es) + [e.ticket]
  {
    if |es| > 0 {
      TicketsSnoc(es[1..], e);
      assert (es + [e])[1..] == es[1..] + [e];
    } else {
      assert (es + [e])[1..] == [];
    }
  }

  /** What another thread holds does not depend on the tickets of others. */
  lemma OthersKept(s: State, s': State, t: nat)
    requires forall u {:trigger PcOk(s, u)} :: PcOk(s, u)
    requires |s.place| <= |s'.place| && forall u: nat :: u != t ==> PcOf(s', u) == PcOf(s, u)
    requires forall k :: 0 <= k < |s.place| ==> s'.place[k] == s.place[k] || (!Others(s.place[k], t) && !Others(s'.place[k], t))
    requires forall k :: |s.place| <= k < |s'.place| ==> s'.place[k].Queued?
    requires (s.lock == s'.lock || (s.lock == NOBODY && s'.lock == t) || (s.lock == t && s'.lock == NOBODY)) && PcOk(s', t)
    ensures forall u {:trigger PcOk(s', u)} :: PcOk(s', u)
  {
    forall u: nat ensures PcOk(s', u) {
      assert PcOk(s, u);
      if u != t {
        forall k: nat
          ensures (k < |s.place| && s.place[k] == Held(u)) <==> (k < |s'.place| && s'.place[k] == Held(u)) {
        }
      }
    }
  }

  predicate Others(p: Place, t: nat) {
    p.Held? && p.t != t
  }

  lemma CallKeeps(s: State, t: nat, given: Given, limit: nat)
    requires Inv(s) && PcOf(s, t).Idle?
    ensures Inv(Call(s, t, given, limit))
  {
    assert PcOk(s, t);
    OthersKept(s, Call(s, t, given, limit), t);
  }

  lemma LockFirstKeeps(s: State, t: nat, given: Given, limit: nat)
    requires Inv(s) && PcOf(s, t) == Enter(given, limit) && s.lock == NOBODY
    ensures Inv(LockFirst(s, t, given, limit))
  {
    assert PcOk(s, t);
    var s' := LockFirst(s, t, given, limit);
    if given.Give? {
      SizeSumSnoc(s.queue, Entry(given.block, given.size, |s.place|));
    }
    assert PcOk(s', t);
    OthersKept(s, s', t);
  }

  lemma PopKeepsQueue(queue: seq<Entry>, place: seq<Place>, t: nat)
    requires QueueOk(queue, place) && |queue| > 0
    ensures queue[0].ticket < |place| && place[queue[0].ticket].Queued?
    ensures QueueOk(queue[1..], place[queue[0].ticket := Held(t)])
  {
  }

  lemma TurnKeeps(s: State, t: nat, limit: nat, taken: seq<Entry>)
    requires Inv(s) && PcOf(s, t) == Loop(limit, taken)
    ensures Inv(Turn(s, t, limit, taken))
  {
    assert PcOk(s, t);
    var s' := Turn(s, t, limit, taken);
    if s.total > limit || IsFull(s.queue) {
      PopKeepsQueue(s.queue, s.place, t);
      TicketsSnoc(taken, s.queue[0]);
      assert Tickets(Taken(PcOf(s', t))) == Tickets(taken) + [s.queue[0].ticket];
    }
    assert PcOk(s', t);
    OthersKept(s, s', t);
  }

  lemma FreeOneKeeps(s: State, t: nat, limit: nat, taken: seq<Entry>, last: bool)
    requires Inv(s) && PcOf(s, t) == Release(limit, taken, last)
    ensures Inv(FreeOne(s, t, limit, taken, last))
  {
    assert PcOk(s, t);
    var s' := FreeOne(s, t, limit, taken, last);
    if |taken| > 0 {
      DropFirst(Tickets(taken));
      assert Tickets(taken)[0] == taken[0].ticket && taken[0].ticket in Tickets(Taken(PcOf(s, t)));
      assert s.place[taken[0].ticket] == Held(t);
      assert Tickets(taken)[1..] == Tickets(taken[1..]);
    }
    assert PcOk(s', t);
    OthersKept(s, s', t);
  }

  /** Any step of any thread keeps the invariant; in particular no check fails. */
  lemma NextKeeps(s: State, t: nat, r: Request)
    requires Inv(s) && Enabled(s, t)
    ensures Inv(Next(s, t, r))
  {
    match PcOf(s, t)
    case Idle => CallKeeps(s, t, r.given, Unsigned(r.limit));
    case Enter(given, limit) => LockFirstKeeps(s, t, given, limit);
    case Loop(limit, taken) => TurnKeeps(s, t, limit, taken);
    case Release(limit, taken, last) => FreeOneKeeps(s, t, limit, taken, last);
    case Again(limit) =>
      assert PcOk(s, t);
      OthersKept(s, Next(s, t, r), t);
  }

  // ---------- whole runs ----------

  datatype Move = Move(t: nat, r: Request)

  /** The states of a run: one more than its moves. */
  ghost predicate IsRun(run: seq<State>, moves: seq<Move>) {
    && |run| == |moves| + 1 && Initial(run[0])
    && forall i :: 0 <= i < |moves| ==> Enabled(run[i], moves[i].t) && run[i + 1] == Next(run[i], moves[i].t, moves[i].r)
  }

  /** Whatever the interleaving, the invariant holds all along: no check fails, the total is
      that of the queued entries, and with the lock free the queue is not full. */
  lemma {:induction false} RunKeeps(run: seq<State>, moves: seq<Move>, n: nat)
    requires IsRun(run, moves) && n < |run|
    ensures Inv(run[n])
  {
    if n == 0 {
      InitialInv(run[0]);
    } else {
      RunKeeps(run, moves, n - 1);
      NextKeeps(run[n - 1], moves[n - 1].t, moves[n - 1].r);
    }
  }

  /** Tickets only move on from queued to held to released, a held one stays with its thread,
      and leave the queue in the order in which they came. */
  lemma StepMovesOn(s: State, t: nat, r: Request, k: nat)
    requires Inv(s) && Enabled(s, t) && k < |s.place|
    ensures var s' := Next(s, t, r);
            && k < |s'.place|
            && (s.place[k] == Released ==> s'.place[k] == Released)
            && (s.place[k].Held? ==> s'.place[k] == s.place[k] || (s.place[k] == Held(t) && s'.place[k] == Released))
            && (s.place[k] == Queued ==>
                  s'.place[k] == Queued
                  || (s'.place[k] == Held(t) && forall j :: 0 <= j < k ==> s.place[j] != Queued))
  {
    assert PcOk(s, t);
    var pc := PcOf(s, t);
    if pc.Release? && |pc.taken| > 0 {
      assert pc.taken[0].ticket in Tickets(pc.taken);
    }
    if pc.Loop? && (s.total > pc.limit || IsFull(s.queue)) {
      PopKeepsQueue(s.queue, s.place, t);
    }
  }

  /** No block is freed twice: once released, a ticket stays released, and the block that a
      step frees was held by the freeing thread, not released. */
  lemma {:induction false} FreedOnce(run: seq<State>, moves: seq<Move>, m: nat, n: nat, k: nat)
    requires IsRun(run, moves) && m <= n < |moves|
    requires k < |run[m].place| && run[m].place[k] == Released
    ensures k < |run[n].place| && run[n].place[k] == Released
    ensures var pc := PcOf(run[n], moves[n].t); pc.Release? && |pc.taken| > 0 ==> pc.taken[0].ticket != k
    decreases n - m
  {
    RunKeeps(run, moves, n);
    if m < n {
      FreedOnce(run, moves, m, n - 1, k);
      RunKeeps(run, moves, n - 1);
      StepMovesOn(run[n - 1], moves[n - 1].t, moves[n - 1].r, k);
    }
    var pc := PcOf(run[n], moves[n].t);
    assert PcOk(run[n], moves[n].t);
    if pc.Release? && |pc.taken| > 0 {
      assert pc.taken[0].ticket in Tickets(pc.taken);
    }
  }

  /** What each step does to the queue: the first locked section of a call queues its block at the
      end, with its size; the loop takes the oldest entry exactly while the total is above the
      limit or the queue is full; nothing else touches it. */
  lemma QueueStep(s: State, t: nat, r: Request)
    requires Inv(s) && Enabled(s, t)
    ensures var pc, s' := PcOf(s, t), Next(s, t, r);
            if pc.Enter? && pc.given.Give? then
              && |s'.queue| == |s.queue| + 1 && s'.queue[..|s.queue|] == s.queue
              && s'.queue[|s.queue|].block == pc.given.block && s'.queue[|s.queue|].size == pc.given.size
              && s'.total == s.total + pc.given.size + 144
            else if pc.Loop? && (s.total > pc.limit || |s.queue| == QUEUE_SIZE - 1) then
              && |s.queue| > 0 && s'.queue == s.queue[1..] && s'.total == s.total - s.queue[0].size - 144
              && Taken(PcOf(s', t)) == pc.taken + [s.queue[0]]
            else s'.queue == s.queue && s'.total == s.total
  {
    assert PcOk(s, t);
  }

  /** A step that ends a call's last locked section leaves the total within its limit. */
  lemma LastUnlockWithin(s: State, t: nat, r: Request)
    requires Inv(s) && Enabled(s, t)
    requires var pc := PcOf(Next(s, t, r), t); PcOf(s, t).Loop? && pc.Release? && pc.last
    ensures Next(s, t, r).lock == NOBODY && 0 <= Next(s, t, r).total <= PcOf(s, t).limit && !IsFull(Next(s, t, r).queue)
  {
    assert PcOk(s, t);
  }

  /** Some thread that is in a call can always take a step. */
  lemma Progress(s: State, t: nat) returns (u: nat)
    requires Inv(s) && !PcOf(s, t).Idle?
    ensures !PcOf(s, u).Idle? && Enabled(s, u)
  {
    u := if s.lock == NOBODY then t else s.lock;
    assert PcOk(s, u);
  }

  // ---------- the code of the locked sections ----------

  datatype Section = Section(queue: seq<Entry>, total: int, taken: seq<Entry>, full: bool)

  /** The loop of a locked section, on values: pops until the total is within the limit and
      the queue is not full, or until the batch is full. */
  function Drained(queue: seq<Entry>, total: int, limit: nat, taken: seq<Entry>): Section {
    if (total > limit || IsFull(queue)) && |queue| > 0 then
      var e := queue[0];
      if |taken| + 1 >= BATCH then Section(queue[1..], total - (e.size + OVERHEAD), taken + [e], true)
      else Drained(queue[1..], total - (e.size + OVERHEAD), limit, taken + [e])
    else Section(queue, total, taken, false)
  }

  /** One turn of that loop. */
  lemma DrainTurn(queue: seq<Entry>, total: int, limit: nat, taken: seq<Entry>)
    requires |queue| > 0 && (total > limit || IsFull(queue))
    ensures var e := queue[0];
            Drained(queue, total, limit, taken)
            == if |taken| + 1 >= BATCH then Section(queue[1..], total - (e.size + OVERHEAD), taken + [e], true)
               else Drained(queue[1..], total - (e.size + OVERHEAD), limit, taken + [e])
  {
  }

  lemma DrainEnd(queue: seq<Entry>, total: int, limit: nat, taken: seq<Entry>)
    requires !(total > limit || IsFull(queue))
    ensures Drained(queue, total, limit, taken) == Section(queue, total, taken, false)
  {
  }

  /** Each of the first `k` entries had to go: with it and all behind it, the total was above the
      limit or the queue was full. */
  ghost predicate Needed(queue: seq<Entry>, limit: nat, k: nat)
    requires k <= |queue|
  {
    forall i :: 0 <= i < k ==> SizeSum(queue[i..]) > limit || |queue[i..]| == QUEUE_SIZE - 1
  }

  lemma NeededFirst(queue: seq<Entry>, limit: nat, k: nat)
    requires 0 < k <= |queue| && (SizeSum(queue) > limit || IsFull(queue)) && Needed(queue[1..], limit, k - 1)
    ensures Needed(queue, limit, k)
  {
    hide SizeSum;
    assert queue[0..] == queue;
    forall i | 0 < i < k ensures SizeSum(queue[i..]) > limit || |queue[i..]| == QUEUE_SIZE - 1 {
      assert queue[1..][i - 1..] == queue[i..];
    }
  }

  lemma TakenFirst(queue: seq<Entry>, taken: seq<Entry>, k: nat)
    requires 0 < k <= |queue|
    ensures taken + [queue[0]] + queue[1..][..k - 1] == taken + queue[..k] && queue[1..][k - 1..] == queue[k..]
  {
  }

  /** What the loop takes and leaves: it takes entries from the front as needed, and stops with a
      full batch, or when the total is within the limit and the queue is not full. */
  lemma {:induction false} DrainedIs(queue: seq<Entry>, total: int, limit: nat, taken: seq<Entry>) returns (k: nat)
    requires total == SizeSum(queue) && |taken| < BATCH
    ensures var d := Drained(queue, total, limit, taken);
            && k <= |queue| && d.taken == taken + queue[..k] && d.queue == queue[k..] && Needed(queue, limit, k)
            && (d.full <==> |d.taken| == BATCH) && |d.taken| <= BATCH
    decreases |queue|
  {
    hide Drained, SizeSum, Needed;
    SizeSumParts(queue);
    k := 0;
    if total > limit || IsFull(queue) {
      var e := queue[0];
      DrainTurn(queue, total, limit, taken);
      k := 1;
      if |taken| + 1 < BATCH {
        var m := DrainedIs(queue[1..], total - (e.size + OVERHEAD), limit, taken + [e]);
        k := m + 1;
      } else {
        NoneNeeded(queue[1..], limit);
      }
      TakenFirst(queue, taken, k);
      NeededFirst(queue, limit, k);
    } else {
      DrainEnd(queue, total, limit, taken);
      NoneNeeded(queue, limit);
      assert taken + queue[..0] == taken;
    }
  }

  lemma NoneNeeded(queue: seq<Entry>, limit: nat)
    ensures Needed(queue, limit, 0)
  {
  }

  lemma SizeSumParts(queue: seq<Entry>)
    ensures SizeSum(queue) >= 0
    ensures if |queue| == 0 then SizeSum(queue) == 0 else SizeSum(queue) == queue[0].size + OVERHEAD + SizeSum(queue[1..])
  {
  }

  ghost function Turns(s: State, t: nat, n: nat): State {
    if n == 0 then s
    else
      var m := Turns(s, t, n - 1);
      if PcOf(m, t).Loop? then Turn(m, t, PcOf(m, t).limit, PcOf(m, t).taken) else m
  }

  lemma {:induction false} TurnsFirst(s: State, t: nat, n: nat)
    requires PcOf(s, t).Loop? && n > 0
    ensures Turns(s, t, n) == Turns(Turn(s, t, PcOf(s, t).limit, PcOf(s, t).taken), t, n - 1)
  {
    if n > 1 {
      TurnsFirst(s, t, n - 1);
    }
  }

  /** The turns of a thread in its locked section amount to that loop. */
  lemma {:induction false} TurnsDrain(s: State, t: nat, limit: nat, taken: seq<Entry>) returns (n: nat)
    requires Inv(s) && PcOf(s, t) == Loop(limit, taken)
    ensures var d := Drained(s.queue, s.total, limit, taken); var s' := Turns(s, t, n);
            && PcOf(s', t) == Release(limit, d.taken, !d.full) && s'.lock == NOBODY
            && s'.queue == d.queue && s'.total == d.total && |d.taken| <= BATCH
    decreases |s.queue|
  {
    assert PcOk(s, t);
    var s1 := Turn(s, t, limit, taken);
    TurnKeeps(s, t, limit, taken);
    if PcOf(s1, t).Loop? {
      var m := TurnsDrain(s1, t, limit, taken + [s.queue[0]]);
      n := m + 1;
      TurnsFirst(s, t, n);
    } else {
      n := 1;
      assert Turns(s, t, 0) == s;
    }
  }

  /** The shared queue and its byte count. */
  class BlockQueue {
    const ring: FreeQueue<Entry>
    var size: int

    ghost predicate Valid()
      reads this, ring, ring.q
    {
      ring.Valid() && size == SizeSum(ring.Contents())
    }

    constructor ()
      ensures Valid() && fresh(ring) && fresh(ring.q) && ring.Contents() == []
    {
      ring := new FreeQueue();
      size := 0;
    }

    method Add(e: Entry)
      requires Valid() && !ring.Full()
      modifies this, ring`front, ring.q
      ensures Valid() && ring.Contents() == old(ring.Contents()) + [e]
    {
      SizeSumSnoc(ring.Contents(), e);
      size := size + e.size + OVERHEAD;
      ring.Push(e);
    }

    /** Takes the oldest entry off the queue, with its bytes. */
    method PopEntry() returns (e: Entry)
      requires Valid() && ring.Contents() != []
      modifies this, ring`back
      ensures Valid() && old(|ring.Contents()|) > 0 && e == old(ring.Contents()[0]) && ring.Contents() == old(ring.Contents()[1..])
      ensures size == old(size) - (e.size + OVERHEAD)
    {
      hide SizeSum;
      SizeSumParts(ring.Contents());
      e := ring.Pop();
      size := size - (e.size + OVERHEAD);
    }

    /** The loop of a locked section: takes the oldest entries, each only when the total was above
        the limit or the ring was full, until neither holds or the batch is full. */
    method Drain(limit: nat) returns (entries: seq<Entry>, batchFull: bool)
      requires Valid()
      modifies this, ring`back
      ensures Valid() && |entries| <= |old(ring.Contents())| && |entries| <= BATCH && (batchFull <==> |entries| == BATCH)
      ensures entries == old(ring.Contents())[..|entries|] && ring.Contents() == old(ring.Contents())[|entries|..]
      ensures Needed(old(ring.Contents()), limit, |entries|)
      ensures Section(ring.Contents(), size, entries, batchFull) == Drained(old(ring.Contents()), old(size), limit, [])
      ensures !batchFull ==> 0 <= size <= limit && !ring.Full()
    {
      hide SizeSum, Drained, Needed;
      ghost var k := DrainedIs(ring.Contents(), size, limit, []);
      assert [] + ring.Contents()[..k] == ring.Contents()[..k];
      entries, batchFull := [], false;
      while size > limit || ring.Full()
        invariant Valid() && |entries| < BATCH
        invariant Drained(ring.Contents(), size, limit, entries) == Drained(old(ring.Contents()), old(size), limit, [])
        decreases |ring.Contents()|
      {
        SizeSumParts(ring.Contents());
        DrainTurn(ring.Contents(), size, limit, entries);
        var e := PopEntry();
        entries := entries + [e];
        if |entries| == BATCH {
          batchFull := true;
          return;
        }
      }
      SizeSumParts(ring.Contents());
      DrainEnd(ring.Contents(), size, limit, entries);
    }
  }
}
