/** The bounded output queue in front of a socket: push with an eviction policy, bulk dequeue, and a
    counter of dropped elements. First with each push as one step, then with the size check, the
    eviction, the enqueue and the counting of several producers interleaved. */
module OutputQueues {
  import opened Wrappers

  datatype EvictionPolicy = DropOldest | DropNewest

  /** A maximum of zero means no bound; a warning level of zero means no warning. */
  datatype QueueConfig = QueueConfig(maxSize: nat, policy: EvictionPolicy, warningLevel: nat)

  // ---- One operation at a time ---------------------------------------------------------------

  datatype Queue<T> = Queue(items: seq<T>, dropCount: nat, warning: bool)

  function Pushed<T>(c: QueueConfig, q: Queue<T>, elem: T): Queue<T> {
    if c.maxSize == 0 then
      q.(items := q.items + [elem])
    else if |q.items| < c.maxSize then
      q.(items := q.items + [elem], warning := q.warning || (c.warningLevel != 0 && |q.items| >= c.warningLevel))
    else if c.policy == DropOldest then
      q.(items := q.items[1..] + [elem], dropCount := q.dropCount + 1)
    else
      q.(dropCount := q.dropCount + 1)
  }

  function Batch<T>(q: Queue<T>, max: nat): seq<T> {
    if max < |q.items| then q.items[..max] else q.items
  }

  function Dequeued<T>(c: QueueConfig, q: Queue<T>, max: nat): Queue<T> {
    var rest := q.items[|Batch(q, max)|..];
    q.(items := rest, warning := q.warning && !(c.warningLevel != 0 && |rest| < c.warningLevel))
  }

  datatype Operation<T> = Push(elem: T) | DequeueBulk(max: nat)

  /** A queue together with everything pushed into it and taken out of it so far. */
  datatype Trace<T> = Trace(queue: Queue<T>, pushed: seq<T>, taken: seq<T>)

  function Perform<T>(c: QueueConfig, t: Trace<T>, op: Operation<T>): Trace<T> {
    match op
    case Push(elem) => t.(queue := Pushed(c, t.queue, elem), pushed := t.pushed + [elem])
    case DequeueBulk(max) => t.(queue := Dequeued(c, t.queue, max), taken := t.taken + Batch(t.queue, max))
  }

  function PerformAll<T>(c: QueueConfig, ops: seq<Operation<T>>): Trace<T> {
    if ops == [] then Trace(Queue([], 0, false), [], [])
    else Perform(c, PerformAll(c, ops[..|ops| - 1]), ops[|ops| - 1])
  }

  /** `part` can be obtained from `whole` by leaving elements out. */
  ghost predicate Subsequence<T>(part: seq<T>, whole: seq<T>)
    decreases |whole|
  {
    part == [] ||
    (whole != [] &&
     var p, w := |part| - 1, |whole| - 1;
     (part[p] == whole[w] && Subsequence(part[..p], whole[..w])) || Subsequence(part, whole[..w]))
  }

  lemma {:induction false} SubsequenceOfLonger<T>(part: seq<T>, whole: seq<T>, x: T)
    requires Subsequence(part, whole)
    ensures Subsequence(part, whole + [x]) && Subsequence(part + [x], whole + [x])
  {
  }

  lemma {:induction false} SubsequenceWithout<T>(part: seq<T>, whole: seq<T>, i: nat)
    requires Subsequence(part, whole) && i < |part|
    ensures Subsequence(part[..i] + part[i + 1..], whole)
    decreases |whole|
  {
    var p, w := |part| - 1, |whole| - 1;
    var less := part[..i] + part[i + 1..];
    if Subsequence(part, whole[..w]) {
      SubsequenceWithout(part, whole[..w], i);
    } else if i == p {
      assert less == part[..p];
    } else {
      SubsequenceWithout(part[..p], whole[..w], i);
      assert less[..p - 1] == part[..p][..i] + part[..p][i + 1..];
    }
  }

  ghost predicate Conserved<T>(c: QueueConfig, t: Trace<T>) {
    && |t.pushed| == |t.taken| + |t.queue.items| + t.queue.dropCount
    && Subsequence(t.taken + t.queue.items, t.pushed)
    && (c.maxSize == 0 ==> t.pushed == t.taken + t.queue.items)
    && (c.maxSize != 0 ==> |t.queue.items| <= c.maxSize)
    && (c.policy == DropOldest ==> MostRecent(t.queue.items, t.pushed))
  }

  /** The elements are the last ones pushed. */
  ghost predicate MostRecent<T>(items: seq<T>, pushed: seq<T>) {
    |items| <= |pushed| && items == pushed[|pushed| - |items|..]
  }

  /** The warning is on while the size is above the level and off while it is below. */
  ghost predicate Warned<T>(c: QueueConfig, q: Queue<T>) {
    && (q.warning ==> c.maxSize != 0 && c.warningLevel != 0 && |q.items| >= c.warningLevel)
    && (c.maxSize != 0 && c.warningLevel != 0 && |q.items| > c.warningLevel ==> q.warning)
  }

  lemma {:induction false} AppendKeeps<T>(c: QueueConfig, t: Trace<T>, elem: T)
    requires Conserved(c, t) && (c.maxSize == 0 || |t.queue.items| < c.maxSize)
    ensures Conserved(c, Perform(c, t, Push(elem)))
  {
    var u := Perform(c, t, Push(elem));
    SubsequenceOfLonger(t.taken + t.queue.items, t.pushed, elem);
    assert u.taken + u.queue.items == (t.taken + t.queue.items) + [elem];
  }

  /** Evicting the oldest leaves taken and queued in push order. */
  lemma {:induction false} OldestGoes<T>(taken: seq<T>, items: seq<T>, pushed: seq<T>, elem: T)
    requires Subsequence(taken + items, pushed) && items != []
    ensures Subsequence(taken + (items[1..] + [elem]), pushed + [elem])
  {
    var kept, n := taken + items, |taken|;
    SubsequenceWithout(kept, pushed, n);
    assert kept[..n] + kept[n + 1..] == taken + items[1..];
    SubsequenceOfLonger(taken + items[1..], pushed, elem);
    assert taken + (items[1..] + [elem]) == taken + items[1..] + [elem];
  }

  lemma {:induction false} EvictionKeeps<T>(c: QueueConfig, t: Trace<T>, elem: T)
    requires Conserved(c, t) && c.maxSize != 0 && |t.queue.items| == c.maxSize
    ensures Conserved(c, Perform(c, t, Push(elem)))
  {
    if c.policy == DropOldest {
      OldestGoes(t.taken, t.queue.items, t.pushed, elem);
    } else {
      SubsequenceOfLonger(t.taken + t.queue.items, t.pushed, elem);
    }
  }

  lemma {:induction false} DequeueKeeps<T>(c: QueueConfig, t: Trace<T>, max: nat)
    requires Conserved(c, t)
    ensures Conserved(c, Perform(c, t, DequeueBulk(max)))
  {
    var u := Perform(c, t, DequeueBulk(max));
    assert u.taken + u.queue.items == t.taken + t.queue.items;
  }

  /** Every element pushed was taken, is queued or was counted as dropped; what was taken followed by
      what is queued keeps the push order; the size stays within the maximum; dropping the oldest
      keeps the most recent ones; and the warning follows the level. */
  lemma {:induction false} NothingIsLost<T>(c: QueueConfig, ops: seq<Operation<T>>)
    ensures Conserved(c, PerformAll(c, ops)) && Warned(c, PerformAll(c, ops).queue)
  {
    if ops != [] {
      var before, op := ops[..|ops| - 1], ops[|ops| - 1];
      NothingIsLost(c, before);
      var t := PerformAll(c, before);
      match op
      case Push(elem) =>
        if c.maxSize == 0 || |t.queue.items| < c.maxSize {
          AppendKeeps(c, t, elem);
        } else {
          EvictionKeeps(c, t, elem);
        }
      case DequeueBulk(max) => DequeueKeeps(c, t, max);
    }
  }

  /** One more push, after any operations: an element is dropped exactly when the queue is full, and it
      is the oldest one or the new one. */
  lemma {:induction false} PushOneMore<T>(c: QueueConfig, ops: seq<Operation<T>>, elem: T)
    ensures var t, u := PerformAll(c, ops), PerformAll(c, ops + [Push(elem)]);
            var full := c.maxSize != 0 && |t.queue.items| == c.maxSize;
            && u.pushed == t.pushed + [elem] && u.taken == t.taken
            && u.queue.dropCount == t.queue.dropCount + (if full then 1 else 0)
            && u.queue.items == (if !full then t.queue.items + [elem]
                                 else if c.policy == DropOldest then t.queue.items[1..] + [elem]
                                 else t.queue.items)
  {
    NothingIsLost(c, ops);
    assert (ops + [Push(elem)])[..|ops|] == ops;
  }

  /** One more dequeue takes the oldest elements, as many as there are and at most the maximum; nothing
      is taken exactly when none is asked for or none is there. */
  lemma {:induction false} DequeueOneMore<T>(c: QueueConfig, ops: seq<Operation<T>>, max: nat)
    ensures var t, u := PerformAll(c, ops), PerformAll(c, ops + [DequeueBulk(max)]);
            var n := |u.taken| - |t.taken|;
            && n == (if max < |t.queue.items| then max else |t.queue.items|)
            && u.taken == t.taken + t.queue.items[..n] && u.queue.items == t.queue.items[n..]
            && u.pushed == t.pushed && u.queue.dropCount == t.queue.dropCount
            && (u.taken == t.taken <==> max == 0 || t.queue.items == [])
            && (u.taken == t.taken ==> u.queue.items == t.queue.items)
  {
    assert (ops + [DequeueBulk(max)])[..|ops|] == ops;
  }

  // ---- The warning over all operations -------------------------------------------------------

  /** The sizes of the queue after none, one, ... and all of the operations. */
  function Sizes<T>(c: QueueConfig, ops: seq<Operation<T>>): (sizes: seq<nat>)
    ensures |sizes| == |ops| + 1
  {
    (if ops == [] then [] else Sizes(c, ops[..|ops| - 1])) + [|PerformAll(c, ops).queue.items|]
  }

  /** The size has exceeded the level, and has not been below it since. */
  ghost predicate High(sizes: seq<nat>, level: nat) { exists k: nat :: HighSince(sizes, level, k) }

  ghost predicate HighSince(sizes: seq<nat>, level: nat, k: nat) {
    k < |sizes| && sizes[k] > level && forall m :: k <= m < |sizes| ==> sizes[m] >= level
  }

  lemma {:induction false} HighOneMore(sizes: seq<nat>, size: nat, level: nat)
    ensures High(sizes + [size], level) <==> size > level || (High(sizes, level) && size >= level)
  {
    var more := sizes + [size];
    if k: nat :| HighSince(more, level, k) && k < |sizes| {
      assert forall m :: 0 <= m < |sizes| ==> more[m] == sizes[m];
      assert more[|sizes|] >= level && HighSince(sizes, level, k);
    }
    if k: nat :| HighSince(sizes, level, k) && size >= level {
      assert HighSince(more, level, k);
    }
    if size > level {
      assert HighSince(more, level, |sizes|);
    }
  }

  lemma {:induction false} WarningOneMore<T>(c: QueueConfig, t: Trace<T>, op: Operation<T>)
    requires Conserved(c, t) && Warned(c, t.queue)
    ensures var q := Perform(c, t, op).queue;
            q.warning <==> && c.maxSize != 0 && c.warningLevel != 0
                           && (|q.items| > c.warningLevel || (t.queue.warning && |q.items| >= c.warningLevel))
  {
  }

  /** The warning is on exactly when there is a maximum and a level, the size has exceeded the level,
      and it has not fallen below the level since. */
  lemma {:induction false} WarnedIff<T>(c: QueueConfig, ops: seq<Operation<T>>)
    ensures PerformAll(c, ops).queue.warning
            <==> c.maxSize != 0 && c.warningLevel != 0 && High(Sizes(c, ops), c.warningLevel)
  {
    if ops == [] {
      assert Sizes(c, ops) == [0];
    } else {
      var before, op := ops[..|ops| - 1], ops[|ops| - 1];
      WarnedIff(c, before);
      NothingIsLost(c, before);
      WarningOneMore(c, PerformAll(c, before), op);
      HighOneMore(Sizes(c, before), |PerformAll(c, ops).queue.items|, c.warningLevel);
      assert Sizes(c, ops) == Sizes(c, before) + [|PerformAll(c, ops).queue.items|];
    }
  }

  class OutputQueue<T> {
    const config: QueueConfig
    var items: seq<T>
    var dropCount: nat
    var warning: bool

    ghost function View(): Queue<T>
      reads this
    {
      Queue(items, dropCount, warning)
    }

    constructor (config: QueueConfig)
      ensures this.config == config && View() == Queue([], 0, false)
    {
      this.config, items, dropCount, warning := config, [], 0, false;
    }

    method Push(elem: T)
      modifies this
      ensures View() == Pushed(config, old(View()), elem)
      ensures config.maxSize == 0 || |old(items)| < config.maxSize
              ==> items == old(items) + [elem] && dropCount == old(dropCount)
      ensures config.maxSize != 0 && |old(items)| >= config.maxSize
              ==> && items == (if config.policy == DropOldest then old(items)[1..] + [elem] else old(items))
                  && dropCount == old(dropCount) + 1
    {
      if config.maxSize == 0 {
        items := items + [elem];
        return;
      }
      var currentSize := |items|;
      if currentSize < config.maxSize {
        items := items + [elem];
        if config.warningLevel != 0 && currentSize >= config.warningLevel {
          warning := true;
        }
        return;
      }
      if config.policy == DropOldest {
        items := items[1..];
        items := items + [elem];
      }
      dropCount := dropCount + 1;
    }

    method DequeueBulk(max: nat) returns (batch: seq<T>)
      modifies this
      ensures batch == Batch(old(View()), max) && View() == Dequeued(config, old(View()), max)
      ensures |batch| == (if max < |old(items)| then max else |old(items)|) && batch + items == old(items)
      ensures dropCount == old(dropCount)
      ensures warning <==> old(warning) && !(config.warningLevel != 0 && |items| < config.warningLevel)
    {
      var count := if max < |items| then max else |items|;
      batch := items[..count];
      items := items[count..];
      if config.warningLevel != 0 && |items| < config.warningLevel {
        warning := false;
      }
    }
  }

  // ---- Interleaved producers -----------------------------------------------------------------

  /** Where a producer stands inside push. `evicting` tells that it came through the eviction branch
      and still owes the drop counter its increment. */
  datatype Producer<T> = Idle | Evicting(elem: T) | Enqueueing(elem: T, evicting: bool) | Counting

  /** An element that left the queue at its front. */
  datatype Exit<T> = Consumed(elem: T) | Evicted(elem: T)

  /** The shared queue and counter, the producers, and what happened so far: pushes begun, elements
      entered and left in order, elements rejected, and evictions that found the queue empty. */
  datatype System<T> = System(queue: seq<T>, dropCount: nat, producers: seq<Producer<T>>,
                              begun: nat, entered: seq<T>, exits: seq<Exit<T>>, rejected: nat, missed: nat)

  datatype Action<T> = Begin(p: nat, elem: T) | Evict(p: nat) | Enqueue(p: nat) | CountDrop(p: nat) | Consume(max: nat)

  function Initial<T>(producers: nat): System<T> {
    System([], 0, seq(producers, _ => Idle), 0, [], [], 0, 0)
  }

  ghost predicate Enabled<T>(s: System<T>, a: Action<T>) {
    match a
    case Begin(p, _) => p < |s.producers| && s.producers[p].Idle?
    case Evict(p) => p < |s.producers| && s.producers[p].Evicting?
    case Enqueue(p) => p < |s.producers| && s.producers[p].Enqueueing?
    case CountDrop(p) => p < |s.producers| && s.producers[p].Counting?
    case Consume(max) => true
  }

  function Consumption<T>(batch: seq<T>): seq<Exit<T>> {
    seq(|batch|, i requires 0 <= i < |batch| => Consumed(batch[i]))
  }

  ghost function Step<T>(c: QueueConfig, s: System<T>, a: Action<T>): System<T>
    requires Enabled(s, a)
  {
    match a
    case Begin(p, elem) =>
      var t := s.(begun := s.begun + 1);
      if c.maxSize == 0 || |s.queue| < c.maxSize then t.(producers := s.producers[p := Enqueueing(elem, false)])
      else if c.policy == DropOldest then t.(producers := s.producers[p := Evicting(elem)])
      else t.(producers := s.producers[p := Counting], rejected := s.rejected + 1)
    case Evict(p) =>
      var t := s.(producers := s.producers[p := Enqueueing(s.producers[p].elem, true)]);
      if s.queue == [] then t.(missed := s.missed + 1)
      else t.(queue := s.queue[1..], exits := s.exits + [Evicted(s.queue[0])])
    case Enqueue(p) =>
      var elem := s.producers[p].elem;
      s.(queue := s.queue + [elem], entered := s.entered + [elem],
         producers := s.producers[p := if s.producers[p].evicting then Counting else Idle])
    case CountDrop(p) => s.(producers := s.producers[p := Idle], dropCount := s.dropCount + 1)
    case Consume(max) =>
      var n := if max < |s.queue| then max else |s.queue|;
      s.(queue := s.queue[n..], exits := s.exits + Consumption(s.queue[..n]))
  }

  /** The three ways a producer in the middle of push matters to the invariants. */
  datatype Role = Storing | Owing | Undecided

  ghost predicate Plays<T>(p: Producer<T>, role: Role) {
    match role
    case Storing => p.Enqueueing?
    case Owing => p.Counting? || (p.Enqueueing? && p.evicting)
    case Undecided => p.Enqueueing? || p.Evicting?
  }

  ghost function Count<T>(ps: seq<Producer<T>>, role: Role): nat {
    if ps == [] then 0 else Count(ps[..|ps| - 1], role) + (if Plays(ps[|ps| - 1], role) then 1 else 0)
  }

  lemma {:induction false} CountUpdated<T>(ps: seq<Producer<T>>, i: nat, p: Producer<T>, role: Role)
    requires i < |ps|
    ensures Count(ps[i := p], role) + (if Plays(ps[i], role) then 1 else 0)
            == Count(ps, role) + (if Plays(p, role) then 1 else 0)
  {
    var n := |ps| - 1;
    if i == n {
    } else {
      CountUpdated(ps[..n], i, p, role);
    }
  }

  lemma {:induction false} CountIsBounded<T>(ps: seq<Producer<T>>, role: Role)
    ensures Count(ps, role) <= |ps|
  {
    if ps != [] {
      CountIsBounded(ps[..|ps| - 1], role);
    }
  }

  lemma {:induction false} NobodyPlays<T>(ps: seq<Producer<T>>, role: Role)
    requires forall i :: 0 <= i < |ps| ==> ps[i].Idle?
    ensures Count(ps, role) == 0
  {
    if ps != [] {
      NobodyPlays(ps[..|ps| - 1], role);
    }
  }

  ghost function Elements<T>(exits: seq<Exit<T>>): seq<T> { seq(|exits|, i requires 0 <= i < |exits| => exits[i].elem) }

  ghost function Evictions<T>(exits: seq<Exit<T>>): nat {
    if exits == [] then 0
    else Evictions(exits[..|exits| - 1]) + (if exits[|exits| - 1].Evicted? then 1 else 0)
  }

  lemma {:induction false} EvictionsSnoc<T>(exits: seq<Exit<T>>, e: Exit<T>)
    ensures Evictions(exits + [e]) == Evictions(exits) + if e.Evicted? then 1 else 0
  {
    assert (exits + [e])[..|exits|] == exits;
  }

  lemma {:induction false} ConsumptionEvictsNothing<T>(exits: seq<Exit<T>>, batch: seq<T>)
    ensures Evictions(exits + Consumption(batch)) == Evictions(exits)
  {
    var all := exits + Consumption(batch);
    if batch == [] {
      assert all == exits;
    } else {
      var n := |batch| - 1;
      ConsumptionEvictsNothing(exits, batch[..n]);
      assert all[..|all| - 1] == exits + Consumption(batch[..n]);
    }
  }

  ghost predicate Bounded<T>(c: QueueConfig, s: System<T>) {
    c.maxSize != 0 ==> |s.queue| + Count(s.producers, Storing) < c.maxSize + |s.producers|
  }

  /** Elements leave in the order in which they entered. */
  ghost predicate Ordered<T>(s: System<T>) { Elements(s.exits) + s.queue == s.entered }

  ghost predicate Accounted<T>(s: System<T>) {
    && s.dropCount + Count(s.producers, Owing) == Evictions(s.exits) + s.rejected + s.missed
    && s.begun == |s.entered| + s.rejected + Count(s.producers, Undecided)
  }

  lemma {:induction false} StepKeepsBound<T>(c: QueueConfig, s: System<T>, a: Action<T>)
    requires Enabled(s, a) && Bounded(c, s)
    ensures Bounded(c, Step(c, s, a)) && |Step(c, s, a).producers| == |s.producers|
  {
    var t := Step(c, s, a);
    CountIsBounded(s.producers, Storing);
    if !a.Consume? {
      CountUpdated(s.producers, a.p, t.producers[a.p], Storing);
      CountIsBounded(t.producers, Storing);
    }
  }

  lemma {:induction false} StepKeepsOrder<T>(c: QueueConfig, s: System<T>, a: Action<T>)
    requires Enabled(s, a) && Ordered(s)
    ensures Ordered(Step(c, s, a))
  {
  }

  /** One producer moves on: how the counts of the roles it plays change. */
  lemma {:induction false} MoveKeepsAccount<T>(c: QueueConfig, s: System<T>, a: Action<T>)
    requires Enabled(s, a) && Accounted(s) && !a.Consume? && !a.Evict?
    ensures Accounted(Step(c, s, a))
  {
    var moved := Step(c, s, a).producers[a.p];
    CountUpdated(s.producers, a.p, moved, Owing);
    CountUpdated(s.producers, a.p, moved, Undecided);
  }

  lemma {:induction false} EvictKeepsAccount<T>(c: QueueConfig, s: System<T>, p: nat)
    requires Enabled(s, Evict(p)) && Accounted(s)
    ensures Accounted(Step(c, s, Evict(p)))
  {
    var t := Step(c, s, Evict(p));
    CountUpdated(s.producers, p, t.producers[p], Owing);
    CountUpdated(s.producers, p, t.producers[p], Undecided);
    if s.queue != [] {
      EvictionsSnoc(s.exits, Evicted(s.queue[0]));
    }
  }

  lemma {:induction false} StepKeepsAccount<T>(c: QueueConfig, s: System<T>, a: Action<T>)
    requires Enabled(s, a) && Accounted(s)
    ensures Accounted(Step(c, s, a))
  {
    match a
    case Consume(max) => ConsumptionEvictsNothing(s.exits, s.queue[..if max < |s.queue| then max else |s.queue|]);
    case Evict(p) => EvictKeepsAccount(c, s, p);
    case _ => MoveKeepsAccount(c, s, a);
  }

  // ---- Runs ----------------------------------------------------------------------------------

  /** The state after the actions, or nothing if one of them was not enabled. */
  ghost function Run<T>(c: QueueConfig, s: System<T>, actions: seq<Action<T>>): Option<System<T>> {
    if actions == [] then Some(s)
    else
      var n := |actions| - 1;
      Taken(c, Run(c, s, actions[..n]), actions[n])
  }

  ghost function Taken<T>(c: QueueConfig, s: Option<System<T>>, a: Action<T>): Option<System<T>> {
    match s
    case None => None
    case Some(t) => if Enabled(t, a) then Some(Step(c, t, a)) else None
  }

  lemma {:induction false} RunSnoc<T>(c: QueueConfig, s: System<T>, actions: seq<Action<T>>, a: Action<T>)
    ensures Run(c, s, actions + [a]) == Taken(c, Run(c, s, actions), a)
  {
    assert (actions + [a])[..|actions|] == actions;
  }

  lemma {:induction false} RunTogether<T>(c: QueueConfig, s: System<T>, first: seq<Action<T>>, second: seq<Action<T>>)
    requires Run(c, s, first).Some?
    ensures Run(c, s, first + second) == Run(c, Run(c, s, first).value, second)
  {
    if second == [] {
      assert first + second == first;
    } else {
      var n := |second| - 1;
      RunTogether(c, s, first, second[..n]);
      assert first + second == (first + second[..n]) + [second[n]] && second == second[..n] + [second[n]];
      RunSnoc(c, s, first + second[..n], second[n]);
      RunSnoc(c, Run(c, s, first).value, second[..n], second[n]);
    }
  }

  ghost predicate AllIdle<T>(s: System<T>) { forall i :: 0 <= i < |s.producers| ==> s.producers[i].Idle? }

  ghost predicate Invariant<T>(c: QueueConfig, s: System<T>, producers: nat) {
    |s.producers| == producers && Bounded(c, s) && Ordered(s) && Accounted(s)
  }

  lemma {:induction false} RunKeepsInvariant<T>(c: QueueConfig, producers: nat, actions: seq<Action<T>>)
    requires producers > 0 && Run(c, Initial(producers), actions).Some?
    ensures Invariant(c, Run(c, Initial(producers), actions).value, producers)
  {
    if actions == [] {
      var s := Initial<T>(producers);
      NobodyPlays(s.producers, Storing);
      NobodyPlays(s.producers, Owing);
      NobodyPlays(s.producers, Undecided);
    } else {
      var n := |actions| - 1;
      RunKeepsInvariant(c, producers, actions[..n]);
      var s := Run(c, Initial(producers), actions[..n]).value;
      StepKeepsBound(c, s, actions[n]);
      StepKeepsOrder(c, s, actions[n]);
      StepKeepsAccount(c, s, actions[n]);
    }
  }

  /** In every interleaving of P producers the queue holds at most maxSize + P - 1 elements, which is
      maxSize for one producer, and elements leave in the order they entered. */
  lemma {:induction false} QueueIsBounded<T>(c: QueueConfig, producers: nat, actions: seq<Action<T>>)
    requires producers > 0 && Run(c, Initial(producers), actions).Some?
    ensures var s := Run(c, Initial(producers), actions).value;
            && (c.maxSize != 0 ==> |s.queue| <= c.maxSize + producers - 1)
            && Elements(s.exits) + s.queue == s.entered
  {
    RunKeepsInvariant(c, producers, actions);
  }

  /** Once every push has returned, the drop counter accounts for exactly the missing elements if and
      only if no eviction found the queue already emptied by the consumer; each that did is counted
      although nothing was dropped. */
  lemma {:induction false} DropCountIsExactIff<T>(c: QueueConfig, producers: nat, actions: seq<Action<T>>)
    requires producers > 0 && Run(c, Initial(producers), actions).Some?
    requires AllIdle(Run(c, Initial(producers), actions).value)
    ensures var s := Run(c, Initial(producers), actions).value;
            var consumed := |s.exits| - Evictions(s.exits);
            && s.begun + s.missed == consumed + |s.queue| + s.dropCount
            && (s.begun == consumed + |s.queue| + s.dropCount <==> NoMissedEviction(c, producers, actions))
  {
    RunKeepsInvariant(c, producers, actions);
    var s := Run(c, Initial(producers), actions).value;
    NobodyPlays(s.producers, Owing);
    NobodyPlays(s.producers, Undecided);
    MissedIffEvictedEmpty(c, producers, actions);
  }

  /** Every eviction in the run found an element to evict. */
  ghost predicate NoMissedEviction<T>(c: QueueConfig, producers: nat, actions: seq<Action<T>>)
    requires Run(c, Initial(producers), actions).Some?
  {
    actions == [] ||
    (var n := |actions| - 1;
     && (actions[n].Evict? ==> Run(c, Initial(producers), actions[..n]).value.queue != [])
     && NoMissedEviction(c, producers, actions[..n]))
  }

  lemma {:induction false} MissedIffEvictedEmpty<T>(c: QueueConfig, producers: nat, actions: seq<Action<T>>)
    requires Run(c, Initial(producers), actions).Some?
    ensures Run(c, Initial(producers), actions).value.missed == 0 <==> NoMissedEviction(c, producers, actions)
  {
    if actions != [] {
      var n := |actions| - 1;
      MissedIffEvictedEmpty(c, producers, actions[..n]);
      StepMisses(c, Run(c, Initial(producers), actions[..n]).value, actions[n]);
    }
  }

  lemma {:induction false} StepMisses<T>(c: QueueConfig, s: System<T>, a: Action<T>)
    requires Enabled(s, a)
    ensures Step(c, s, a).missed == s.missed + if a.Evict? && s.queue == [] then 1 else 0
  {
  }

  lemma {:induction false} RunOneMore<T>(c: QueueConfig, s: System<T>, actions: seq<Action<T>>, t: System<T>,
                                         a: Action<T>)
    requires Run(c, s, actions) == Some(t) && Enabled(t, a)
    ensures Run(c, s, actions + [a]) == Some(Step(c, t, a))
  {
    RunSnoc(c, s, actions, a);
  }

  lemma {:induction false} RunTwo<T>(c: QueueConfig, s: System<T>, a: Action<T>, b: Action<T>)
    requires Enabled(s, a) && Enabled(Step(c, s, a), b)
    ensures Run(c, s, [a, b]) == Some(Step(c, Step(c, s, a), b))
  {
    RunOneMore(c, s, [], s, a);
    RunOneMore(c, s, [a], Step(c, s, a), b);
  }

  /** One producer and the consumer suffice: the consumer empties the full queue between the size check
      and the eviction, and the counter reports a drop although both elements were kept. */
  lemma {:induction false} DropCountedWithoutDrop() returns (actions: seq<Action<char>>, end: System<char>)
    ensures Run(QueueConfig(1, DropOldest, 0), Initial(1), actions) == Some(end) && AllIdle(end)
    ensures end.begun == 2 && end.dropCount == 1 && end.exits == [Consumed('a')] && end.queue == ['b']
  {
    var c := QueueConfig(1, DropOldest, 0);
    var full := System(['a'], 0, [Idle], 1, ['a'], [], 0, 0);
    var emptied := System([], 0, [Evicting('b')], 2, ['a'], [Consumed('a')], 0, 0);
    var stored := System(['b'], 0, [Counting], 2, ['a', 'b'], [Consumed('a')], 0, 1);
    actions := [Begin(0, 'a'), Enqueue(0)];
    OneIsStored(c);
    OverfullIsEmptied(c, full, emptied);
    RunTogether(c, Initial(1), actions, [Begin(0, 'b'), Consume(1)]);
    actions := actions + [Begin(0, 'b'), Consume(1)];
    EvictionFindsNothing(c, emptied, stored);
    RunTogether(c, Initial(1), actions, [Evict(0), Enqueue(0)]);
    actions := actions + [Evict(0), Enqueue(0)];
    RunOneMore(c, Initial(1), actions, stored, CountDrop(0));
    actions := actions + [CountDrop(0)];
    end := Step(c, stored, CountDrop(0));
  }

  lemma {:induction false} OneIsStored(c: QueueConfig)
    requires c.maxSize == 1
    ensures Run(c, Initial(1), [Begin(0, 'a'), Enqueue(0)]) == Some(System(['a'], 0, [Idle], 1, ['a'], [], 0, 0))
  {
    RunTwo(c, Initial(1), Begin(0, 'a'), Enqueue(0));
    var end := Step(c, Step(c, Initial(1), Begin(0, 'a')), Enqueue(0));
    assert end.queue == ['a'] && end.producers == [Idle] && end.entered == ['a'];
  }

  lemma {:induction false} OverfullIsEmptied(c: QueueConfig, full: System<char>, emptied: System<char>)
    requires c.maxSize == 1 && c.policy == DropOldest
    requires full == System(['a'], 0, [Idle], 1, ['a'], [], 0, 0)
    requires emptied == System([], 0, [Evicting('b')], 2, ['a'], [Consumed('a')], 0, 0)
    ensures Run(c, full, [Begin(0, 'b'), Consume(1)]) == Some(emptied)
  {
    RunTwo(c, full, Begin(0, 'b'), Consume(1));
    var end := Step(c, Step(c, full, Begin(0, 'b')), Consume(1));
    assert end.queue == [] && end.producers == [Evicting('b')] && end.exits == [Consumed('a')];
  }

  lemma {:induction false} EvictionFindsNothing(c: QueueConfig, emptied: System<char>, stored: System<char>)
    requires emptied == System([], 0, [Evicting('b')], 2, ['a'], [Consumed('a')], 0, 0)
    requires stored == System(['b'], 0, [Counting], 2, ['a', 'b'], [Consumed('a')], 0, 1)
    ensures Run(c, emptied, [Evict(0), Enqueue(0)]) == Some(stored)
  {
    RunTwo(c, emptied, Evict(0), Enqueue(0));
    var end := Step(c, Step(c, emptied, Evict(0)), Enqueue(0));
    assert end.queue == ['b'] && end.producers == [Counting] && end.entered == ['a', 'b'];
  }

  // ---- The bound is tight --------------------------------------------------------------------

  ghost function Fill<T>(elem: T, n: nat): seq<Action<T>> {
    if n == 0 then [] else Fill(elem, n - 1) + [Begin(0, elem), Enqueue(0)]
  }

  ghost function CheckAll<T>(elem: T, n: nat): seq<Action<T>> {
    if n == 0 then [] else CheckAll(elem, n - 1) + [Begin(n - 1, elem)]
  }

  ghost function StoreAll<T>(n: nat): seq<Action<T>> {
    if n == 0 then [] else StoreAll(n - 1) + [Enqueue(n - 1)]
  }

  lemma {:induction false} Filled<T>(c: QueueConfig, producers: nat, elem: T, n: nat) returns (t: System<T>)
    requires producers > 0 && n <= c.maxSize
    ensures Run(c, Initial(producers), Fill(elem, n)) == Some(t)
    ensures |t.queue| == n && AllIdle(t) && |t.producers| == producers
  {
    t := Initial(producers);
    if n > 0 {
      t := Filled(c, producers, elem, n - 1);
      RunTwo(c, t, Begin(0, elem), Enqueue(0));
      RunTogether(c, Initial(producers), Fill(elem, n - 1), [Begin(0, elem), Enqueue(0)]);
      t := Step(c, Step(c, t, Begin(0, elem)), Enqueue(0));
    }
  }

  ghost predicate Passed<T>(s: System<T>, elem: T, from: nat, to: nat) {
    from <= to <= |s.producers| && forall i :: from <= i < to ==> s.producers[i] == Enqueueing(elem, false)
  }

  lemma {:induction false} AllChecked<T>(c: QueueConfig, s: System<T>, elem: T, n: nat) returns (t: System<T>)
    requires AllIdle(s) && |s.queue| < c.maxSize && n <= |s.producers|
    ensures Run(c, s, CheckAll(elem, n)) == Some(t) && t.queue == s.queue && |t.producers| == |s.producers|
    ensures Passed(t, elem, 0, n) && forall i :: n <= i < |t.producers| ==> t.producers[i].Idle?
  {
    t := s;
    if n > 0 {
      t := AllChecked(c, s, elem, n - 1);
      RunOneMore(c, s, CheckAll(elem, n - 1), t, Begin(n - 1, elem));
      t := Step(c, t, Begin(n - 1, elem));
    }
  }

  lemma {:induction false} AllStored<T>(c: QueueConfig, s: System<T>, elem: T, n: nat) returns (t: System<T>)
    requires Passed(s, elem, 0, |s.producers|) && n <= |s.producers|
    ensures Run(c, s, StoreAll(n)) == Some(t) && |t.queue| == |s.queue| + n && |t.producers| == |s.producers|
    ensures Passed(t, elem, n, |t.producers|)
  {
    t := s;
    if n > 0 {
      t := AllStored(c, s, elem, n - 1);
      RunOneMore(c, s, StoreAll(n - 1), t, Enqueue(n - 1));
      t := Step(c, t, Enqueue(n - 1));
    }
  }

  /** For every maximum and every number of producers some run reaches the bound exactly. */
  lemma {:induction false} BoundIsReached<T>(c: QueueConfig, producers: nat, elem: T) returns (actions: seq<Action<T>>)
    requires producers > 0 && c.maxSize > 0
    ensures Run(c, Initial(producers), actions).Some?
    ensures |Run(c, Initial(producers), actions).value.queue| == c.maxSize + producers - 1
  {
    var almostFull := Filled(c, producers, elem, c.maxSize - 1);
    var checked := AllChecked(c, almostFull, elem, producers);
    var stored := AllStored(c, checked, elem, producers);
    actions := Fill(elem, c.maxSize - 1);
    RunTogether(c, Initial(producers), actions, CheckAll(elem, producers));
    actions := actions + CheckAll(elem, producers);
    RunTogether(c, Initial(producers), actions, StoreAll(producers));
    actions := actions + StoreAll(producers);
  }

  // ---- The two models agree ------------------------------------------------------------------

  /** The actions of one push that nobody interrupts. */
  ghost function Solo<T>(c: QueueConfig, s: System<T>, p: nat, elem: T): seq<Action<T>> {
    if c.maxSize == 0 || |s.queue| < c.maxSize then [Begin(p, elem), Enqueue(p)]
    else if c.policy == DropOldest then [Begin(p, elem), Evict(p)] + [Enqueue(p), CountDrop(p)]
    else [Begin(p, elem), CountDrop(p)]
  }

  /** Consuming is one dequeue: what leaves the shared queue is the batch, in order. */
  lemma {:induction false} ConsumeIsDequeued<T>(c: QueueConfig, s: System<T>, max: nat, warning: bool)
    ensures var t, q := Step(c, s, Consume(max)), Queue(s.queue, s.dropCount, warning);
            && t.queue == Dequeued(c, q, max).items && t.dropCount == s.dropCount && t.producers == s.producers
            && Elements(t.exits) == Elements(s.exits) + Batch(q, max) && Evictions(t.exits) == Evictions(s.exits)
  {
    ConsumptionEvictsNothing(s.exits, s.queue[..if max < |s.queue| then max else |s.queue|]);
  }

  /** A push that nobody interrupts does what the one-step push does, and misses no eviction. */
  lemma {:induction false} SoloPushIsPushed<T>(c: QueueConfig, s: System<T>, p: nat, elem: T, warning: bool)
    requires p < |s.producers| && s.producers[p].Idle?
    ensures var end, q := Run(c, s, Solo(c, s, p, elem)), Pushed(c, Queue(s.queue, s.dropCount, warning), elem);
            && end.Some? && end.value.queue == q.items && end.value.dropCount == q.dropCount
            && end.value.producers == s.producers && end.value.missed == s.missed
  {
    var t := Step(c, s, Begin(p, elem));
    if c.maxSize == 0 || |s.queue| < c.maxSize {
      RunTwo(c, s, Begin(p, elem), Enqueue(p));
    } else if c.policy == DropOldest {
      var u := Step(c, t, Evict(p));
      RunTwo(c, s, Begin(p, elem), Evict(p));
      RunTwo(c, u, Enqueue(p), CountDrop(p));
      RunTogether(c, s, [Begin(p, elem), Evict(p)], [Enqueue(p), CountDrop(p)]);
    } else {
      RunTwo(c, s, Begin(p, elem), CountDrop(p));
    }
  }
}
