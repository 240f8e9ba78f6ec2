/** `record` under concurrency: the tip is read, written and the entry pushed
    under three separate lock acquisitions, so calls interleave between them. */
module AuditConcurrency {
  import opened Seqs
  import opened Json
  import opened AuditEntries

  /** One task is one call of `record`. */
  type Task = nat

  datatype Payload = Payload(time: int, action: string, actor: string, target: string, details: Json)

  datatype Conf = Conf(env: Env, maxEntries: nat, payload: Task -> Payload)

  /** How far a call has come. `from` remembers which call had written the tip
      that this one read. */
  datatype Phase =
    | HasRead(prev: Option<string>, from: Option<Task>)
    | HasWritten(entry: Entry, from: Option<Task>)
    | Pushed(entry: Entry, from: Option<Task>)

  /** `log` and `order` record every push; `writer` is the last call to set the tip. */
  datatype Sys = Sys(
    tip: Option<string>,
    writer: Option<Task>,
    tasks: map<Task, Phase>,
    buffer: seq<Entry>,
    log: seq<Entry>,
    order: seq<Task>)

  datatype Move = Read(t: Task) | WriteTip(t: Task) | Push(t: Task)

  const Start := Sys(None, None, map[], [], [], [])

  function MakeEntry(c: Conf, t: Task, prev: Option<string>): Entry {
    var p := c.payload(t);
    Entry(p.time, p.action, p.actor, p.target, p.details, prev)
  }

  predicate Enabled(s: Sys, m: Move) {
    match m
    case Read(t) => t !in s.tasks
    case WriteTip(t) => t in s.tasks && s.tasks[t].HasRead?
    case Push(t) => t in s.tasks && s.tasks[t].HasWritten?
  }

  function Apply(c: Conf, s: Sys, m: Move): Sys
    requires Enabled(s, m)
  {
    match m
    case Read(t) => s.(tasks := s.tasks[t := HasRead(s.tip, s.writer)])
    case WriteTip(t) =>
      var e := MakeEntry(c, t, s.tasks[t].prev);
      s.(tip := Some(EntryHash(c.env, e)), writer := Some(t),
         tasks := s.tasks[t := HasWritten(e, s.tasks[t].from)])
    case Push(t) =>
      var e := s.tasks[t].entry;
      s.(tasks := s.tasks[t := Pushed(e, s.tasks[t].from)],
         buffer := RingPush(c.maxEntries, s.buffer, e), log := s.log + [e], order := s.order + [t])
  }

  predicate Valid(c: Conf, s: Sys, moves: seq<Move>)
    decreases |moves|
  {
    moves == [] || (Enabled(s, moves[0]) && Valid(c, Apply(c, s, moves[0]), moves[1..]))
  }

  function Exec(c: Conf, s: Sys, moves: seq<Move>): Sys
    requires Valid(c, s, moves)
    decreases |moves|
  {
    if moves == [] then s else Exec(c, Apply(c, s, moves[0]), moves[1..])
  }

  // ---- Every interleaving ----

  predicate HasEntry(s: Sys, t: Task) {
    t in s.tasks && !s.tasks[t].HasRead?
  }

  /** The hash a call read, as a function of the call it read it from. */
  predicate Origin(c: Conf, s: Sys, from: Option<Task>, hash: Option<string>) {
    match from
    case None => hash == None
    case Some(u) => HasEntry(s, u) && hash == Some(EntryHash(c.env, s.tasks[u].entry))
  }

  function PrevOf(p: Phase): Option<string> {
    if p.HasRead? then p.prev else p.entry.prevHash
  }

  ghost predicate Inv(c: Conf, s: Sys) {
    && s.buffer == Last(Capacity(c.maxEntries), s.log)
    && |s.order| == |s.log|
    && (forall i :: 0 <= i < |s.order| ==>
          s.order[i] in s.tasks && s.tasks[s.order[i]].Pushed? && s.tasks[s.order[i]].entry == s.log[i])
    && Origin(c, s, s.writer, s.tip)
    && (forall t :: t in s.tasks ==> Origin(c, s, s.tasks[t].from, PrevOf(s.tasks[t])))
  }

  lemma OriginKept(c: Conf, s: Sys, m: Move, from: Option<Task>, hash: Option<string>)
    requires Enabled(s, m) && Origin(c, s, from, hash)
    ensures Origin(c, Apply(c, s, m), from, hash)
  {
  }

  lemma InvStep(c: Conf, s: Sys, m: Move)
    requires Inv(c, s) && Enabled(s, m)
    ensures Inv(c, Apply(c, s, m))
  {
    var s' := Apply(c, s, m);
    forall t | t in s'.tasks ensures Origin(c, s', s'.tasks[t].from, PrevOf(s'.tasks[t])) {
      if t in s.tasks {
        OriginKept(c, s, m, s.tasks[t].from, PrevOf(s.tasks[t]));
      } else {
        OriginKept(c, s, m, s.writer, s.tip);
      }
    }
    if m.Push? {
      RingPushIsTail(c.maxEntries, s.log, s.tasks[m.t].entry);
    }
    if !m.WriteTip? {
      OriginKept(c, s, m, s.writer, s.tip);
    }
  }

  lemma {:induction false} InvRun(c: Conf, s: Sys, moves: seq<Move>)
    requires Inv(c, s) && Valid(c, s, moves)
    ensures Inv(c, Exec(c, s, moves))
    decreases |moves|
  {
    if moves != [] {
      InvStep(c, s, moves[0]);
      InvRun(c, Apply(c, s, moves[0]), moves[1..]);
    }
  }

  /** The entry holds the arguments of call `t`. */
  predicate Holds(c: Conf, e: Entry, t: Task) {
    var p := c.payload(t);
    e.timestamp == p.time && e.action == p.action && e.actor == p.actor && e.target == p.target && e.details == p.details
  }

  /** Each call that has finished is in the log once, with its own arguments. */
  ghost predicate Attributed(c: Conf, s: Sys) {
    && |s.order| == |s.log|
    && (forall t :: t in s.tasks && !s.tasks[t].HasRead? ==> Holds(c, s.tasks[t].entry, t))
    && (forall i :: 0 <= i < |s.order| ==> Holds(c, s.log[i], s.order[i]))
    && (forall t :: t in s.order <==> t in s.tasks && s.tasks[t].Pushed?)
    && (forall i, j :: 0 <= i < j < |s.order| ==> s.order[i] != s.order[j])
  }

  lemma {:induction false} AttributedRun(c: Conf, s: Sys, moves: seq<Move>)
    requires Attributed(c, s) && Valid(c, s, moves)
    ensures Attributed(c, Exec(c, s, moves))
    decreases |moves|
  {
    if moves != [] {
      AttributedStep(c, s, moves[0]);
      AttributedRun(c, Apply(c, s, moves[0]), moves[1..]);
    }
  }

  lemma AttributedStep(c: Conf, s: Sys, m: Move)
    requires Attributed(c, s) && Enabled(s, m)
    ensures Attributed(c, Apply(c, s, m))
  {
    var s' := Apply(c, s, m);
    if m.Push? {
      assert m.t !in s.order;
      assert forall t :: t in s'.order <==> t in s.order || t == m.t;
    }
  }

  /** In every interleaving the buffer is the newest `Capacity` pushes, and the
      pushes are exactly the finished calls, each once and with its arguments. */
  lemma BufferIsLastPushes(c: Conf, moves: seq<Move>)
    requires Valid(c, Start, moves)
    ensures var s := Exec(c, Start, moves); s.buffer == Last(Capacity(c.maxEntries), s.log) && Attributed(c, s)
  {
    InvRun(c, Start, moves);
    AttributedRun(c, Start, moves);
  }

  /** Entries of the run with one digest have one hashed text. */
  ghost predicate NoCollision(c: Conf, s: Sys) {
    forall t, u | HasEntry(s, t) && HasEntry(s, u) ::
      EntryHash(c.env, s.tasks[t].entry) == EntryHash(c.env, s.tasks[u].entry) ==>
        Preimage(c.env, s.tasks[t].entry) == Preimage(c.env, s.tasks[u].entry)
  }

  /** The call pushed at position `i` read the tip left by the call pushed just
      before it, or by one whose hashed text is the same. */
  predicate ReadsLikePredecessor(c: Conf, s: Sys, i: int) {
    1 <= i < |s.order| && i <= |s.log| && s.order[i] in s.tasks && s.tasks[s.order[i]].from.Some?
    && HasEntry(s, s.tasks[s.order[i]].from.value)
    && Preimage(c.env, s.tasks[s.tasks[s.order[i]].from.value].entry) == Preimage(c.env, s.log[i - 1])
  }

  /** The call pushed at position `i` read the tip left by the call pushed just before it. */
  predicate ReadsPredecessor(s: Sys, i: int) {
    1 <= i < |s.order| && s.order[i] in s.tasks && s.tasks[s.order[i]].from == Some(s.order[i - 1])
  }

  /** Entry `i` names the hash of entry `i - 1`. */
  predicate Link(env: Env, log: seq<Entry>, i: int) {
    1 <= i < |log| && log[i].prevHash == Some(EntryHash(env, log[i - 1]))
  }

  lemma LinkedTailIff(env: Env, log: seq<Entry>, n: nat)
    ensures var tail := Last(n, log);
            Linked(env, tail) <==> forall i :: |log| - |tail| < i < |log| ==> Link(env, log, i)
  {
    var tail := Last(n, log);
    var d := |log| - |tail|;
    if Linked(env, tail) {
      forall i | d < i < |log| ensures Link(env, log, i) {
        assert tail[i - d].prevHash == Some(EntryHash(env, tail[i - d - 1]));
        assert tail[i - d] == log[i] && tail[i - d - 1] == log[i - 1];
      }
    }
    if forall i :: d < i < |log| ==> Link(env, log, i) {
      forall k | 1 <= k < |tail| ensures tail[k].prevHash == Some(EntryHash(env, tail[k - 1])) {
        assert Link(env, log, d + k);
        assert tail[k] == log[d + k] && tail[k - 1] == log[d + k - 1];
      }
    }
  }

  lemma LinkIffReads(c: Conf, s: Sys, i: nat)
    requires Inv(c, s) && NoCollision(c, s) && 1 <= i < |s.log|
    ensures Link(c.env, s.log, i) <==> ReadsLikePredecessor(c, s, i)
  {
    var t, u := s.order[i], s.order[i - 1];
    assert Origin(c, s, s.tasks[t].from, PrevOf(s.tasks[t]));
    assert HasEntry(s, u) && s.tasks[u].entry == s.log[i - 1];
  }

  /** Exactly which interleavings verify: those in which each buffered call but
      the oldest read the tip of the call pushed before it, or of one with the
      same hashed text. */
  lemma VerifiesIffOrdered(c: Conf, moves: seq<Move>)
    requires Valid(c, Start, moves) && NoCollision(c, Exec(c, Start, moves))
    ensures var s := Exec(c, Start, moves);
            Linked(c.env, s.buffer) <==>
            (forall i :: |s.log| - |s.buffer| < i < |s.log| ==> ReadsLikePredecessor(c, s, i))
  {
    InvRun(c, Start, moves);
    var s := Exec(c, Start, moves);
    LinkedTailIff(c.env, s.log, Capacity(c.maxEntries));
    forall i | |s.log| - |s.buffer| < i < |s.log| ensures Link(c.env, s.log, i) <==> ReadsLikePredecessor(c, s, i) {
      LinkIffReads(c, s, i);
    }
  }

  // ---- Schedules without overlap ----

  /** The tip is written only while no other call is between its read and its push. */
  predicate Exclusive(c: Conf, s: Sys, moves: seq<Move>)
    requires Valid(c, s, moves)
    decreases |moves|
  {
    moves == [] || (WritesAlone(s, moves[0]) && Exclusive(c, Apply(c, s, moves[0]), moves[1..]))
  }

  predicate WritesAlone(s: Sys, m: Move) {
    m.WriteTip? ==> forall u :: u in s.tasks && u != m.t ==> s.tasks[u].Pushed?
  }

  function Newest(s: Sys): Option<Task> {
    if s.order == [] then None else Some(s.order[|s.order| - 1])
  }

  ghost predicate ExclusiveInv(s: Sys) {
    && (forall i :: 1 <= i < |s.order| ==> ReadsPredecessor(s, i))
    && (forall t :: t in s.tasks && s.tasks[t].HasRead? ==> s.tasks[t].from == s.writer)
    && (forall t :: t in s.tasks && s.tasks[t].HasWritten? ==> s.writer == Some(t) && s.tasks[t].from == Newest(s))
    && ((forall t :: t in s.tasks ==> !s.tasks[t].HasWritten?) ==> s.writer == Newest(s))
    && (forall i :: 0 <= i < |s.order| ==> s.order[i] in s.tasks && s.tasks[s.order[i]].Pushed?)
  }

  lemma ExclusiveStep(c: Conf, s: Sys, m: Move)
    requires ExclusiveInv(s) && Enabled(s, m) && WritesAlone(s, m)
    ensures ExclusiveInv(Apply(c, s, m))
  {
    var s' := Apply(c, s, m);
    forall i | 1 <= i < |s'.order| ensures ReadsPredecessor(s', i) {
      if i < |s.order| { assert ReadsPredecessor(s, i); }
    }
    if m.WriteTip? {
      assert forall t :: t in s.tasks ==> !s.tasks[t].HasWritten?;
      assert s'.tasks[m.t].HasWritten?;
    } else if m.Push? {
      assert forall t :: t in s'.tasks ==> !s'.tasks[t].HasWritten?;
    } else {
      assert forall t :: t in s.tasks ==> t in s'.tasks && s'.tasks[t] == s.tasks[t];
    }
  }

  lemma {:induction false} ExclusiveRun(c: Conf, s: Sys, moves: seq<Move>)
    requires ExclusiveInv(s) && Valid(c, s, moves) && Exclusive(c, s, moves)
    ensures ExclusiveInv(Exec(c, s, moves))
    decreases |moves|
  {
    if moves != [] {
      ExclusiveStep(c, s, moves[0]);
      ExclusiveRun(c, Apply(c, s, moves[0]), moves[1..]);
    }
  }

  /** If no other call writes the tip between a call's read and its own push,
      the chain verifies in every reachable state, collisions or not. */
  lemma ExclusiveVerifies(c: Conf, moves: seq<Move>)
    requires Valid(c, Start, moves) && Exclusive(c, Start, moves)
    ensures Linked(c.env, Exec(c, Start, moves).buffer)
  {
    InvRun(c, Start, moves);
    ExclusiveRun(c, Start, moves);
    var s := Exec(c, Start, moves);
    forall i | 1 <= i < |s.log| ensures s.log[i].prevHash == Some(EntryHash(c.env, s.log[i - 1])) {
      assert ReadsPredecessor(s, i);
      var t := s.order[i];
      assert Origin(c, s, s.tasks[t].from, PrevOf(s.tasks[t]));
    }
    LinkedSuffix(c.env, s.buffer, s.log);
  }

  /** Two overlapping calls that both read the empty tip break the chain, for
      every digest and every payload. */
  lemma OverlapBreaksChain(c: Conf)
    requires c.maxEntries >= 2
    ensures var moves := [Read(0), Read(1), WriteTip(0), WriteTip(1), Push(0), Push(1)];
            Valid(c, Start, moves) && !Linked(c.env, Exec(c, Start, moves).buffer)
  {
    var e0, e1 := MakeEntry(c, 0, None), MakeEntry(c, 1, None);
    var s1 := Apply(c, Start, Read(0));
    var s2 := Apply(c, s1, Read(1));
    var s3 := Apply(c, s2, WriteTip(0));
    var s4 := Apply(c, s3, WriteTip(1));
    var s5 := Apply(c, s4, Push(0));
    var s6 := Apply(c, s5, Push(1));
    assert s6.buffer == [e0, e1];
    assert s6.buffer[1].prevHash != Some(EntryHash(c.env, s6.buffer[0]));
    UnrollOne(c, s5, Push(1), []);
    UnrollOne(c, s4, Push(0), [Push(1)]);
    UnrollOne(c, s3, WriteTip(1), [Push(0), Push(1)]);
    UnrollOne(c, s2, WriteTip(0), [WriteTip(1), Push(0), Push(1)]);
    UnrollOne(c, s1, Read(1), [WriteTip(0), WriteTip(1), Push(0), Push(1)]);
    UnrollOne(c, Start, Read(0), [Read(1), WriteTip(0), WriteTip(1), Push(0), Push(1)]);
  }

  lemma UnrollOne(c: Conf, s: Sys, m: Move, rest: seq<Move>)
    requires Enabled(s, m) && Valid(c, Apply(c, s, m), rest)
    ensures Valid(c, s, [m] + rest) && Exec(c, s, [m] + rest) == Exec(c, Apply(c, s, m), rest)
  {
    assert ([m] + rest)[1..] == rest;
  }
}
