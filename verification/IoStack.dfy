/** The output image between the controllers and the port hardware. First the hand-off as interleaved steps: writers
    change the image under the lock at any moment, while the applier drops the lock for each port write and, at the
    end of its pass, for the expanders. A port on the processor's own pins follows its write at once; a port on an
    I2C expander is only latched, and reaches its pin when the register it lies in is sent. Then the object with its
    arrays. */
module IoStack {
  import opened Options

  // ----- the hand-off, step by step

  /** Where a port's level ends up. `Expander(r)`: in the r-th register sent by the flush. */
  datatype Backend = NoOutput | Direct | Expander(reg: nat)

  datatype Board = Board(ports: seq<Backend>, regs: nat)

  predicate Drives(b: Board, i: nat) { i < |b.ports| && !b.ports[i].NoOutput? }

  predicate InRegister(b: Board, i: nat, r: nat) { i < |b.ports| && b.ports[i] == Expander(r) }

  predicate BoardOk(b: Board) {
    forall i :: 0 <= i < |b.ports| && b.ports[i].Expander? ==> b.ports[i].reg < b.regs
  }

  /** Where `applyOutputs` is: between passes, about to look at a port, holding a copy of its image taken under the
      lock, back from the port write, or about to send an expander register. */
  datatype Applier = Resting | At(port: nat) | Copied(port: nat, level: bool, due: bool) | Wrote(port: nat, level: bool)
    | Flushing(reg: nat)

  /** `latch` is what each port was last written with, `hw` what its pin outputs. */
  datatype State = State(outputs: seq<bool>, applied: seq<bool>, dirty: seq<bool>, latch: seq<bool>, hw: seq<bool>,
    at: Applier)

  datatype Step =
    | Write(port: nat, level: bool)   // IoStack::write by any task
    | Begin                           // a pass starts
    | Skip                            // a port without an output
    | Copy                            // the first critical section
    | Pass                            // nothing to apply
    | Drive                           // PortIO::write, lock dropped
    | Commit                          // the second critical section
    | StartFlush                      // PortIO::loop
    | Flush                           // one expander register is sent
    | End                             // the pass is over

  predicate Shaped(b: Board, s: State) {
    && BoardOk(b)
    && |s.outputs| == |s.applied| == |s.dirty| == |s.latch| == |s.hw| == |b.ports|
    && match s.at
       case Resting => true
       case At(i) => i <= |b.ports|
       case Copied(i, _, _) => Drives(b, i)
       case Wrote(i, _) => Drives(b, i)
       case Flushing(r) => r <= b.regs
  }

  predicate Enabled(b: Board, s: State, step: Step)
    requires Shaped(b, s)
  {
    match step
    case Write(p, _) => Drives(b, p)
    case Begin => s.at.Resting?
    case Skip => s.at.At? && s.at.port < |b.ports| && !Drives(b, s.at.port)
    case Copy => s.at.At? && Drives(b, s.at.port)
    case Pass => s.at.Copied? && !s.at.due
    case Drive => s.at.Copied? && s.at.due
    case Commit => s.at.Wrote?
    case StartFlush => s.at.At? && s.at.port == |b.ports|
    case Flush => s.at.Flushing? && s.at.reg < b.regs
    case End => s.at.Flushing? && s.at.reg == b.regs
  }

  /** The pins after register `r` has been sent. */
  function Sent(b: Board, s: State, r: nat): (hw: seq<bool>)
    requires Shaped(b, s)
    ensures |hw| == |b.ports|
  {
    seq(|b.ports|, i requires 0 <= i < |b.ports| => if InRegister(b, i, r) then s.latch[i] else s.hw[i])
  }

  function Driven(b: Board, s: State, i: nat, level: bool): (s': State)
    requires Shaped(b, s) && Drives(b, i)
  {
    s.(latch := s.latch[i := level], hw := if b.ports[i].Direct? then s.hw[i := level] else s.hw, at := Wrote(i, level))
  }

  function Committed(b: Board, s: State, i: nat, level: bool): (s': State)
    requires Shaped(b, s) && Drives(b, i)
  {
    if s.outputs[i] == level
    then s.(applied := s.applied[i := level], dirty := s.dirty[i := false], at := At(i + 1))
    else s.(dirty := s.dirty[i := true], at := At(i + 1))
  }

  function Next(b: Board, s: State, step: Step): (s': State)
    requires Shaped(b, s) && Enabled(b, s, step)
    ensures Shaped(b, s')
  {
    match step
    case Write(p, level) => s.(outputs := s.outputs[p := level], dirty := s.dirty[p := true])
    case Begin => s.(at := At(0))
    case Skip => s.(at := At(s.at.port + 1))
    case Copy =>
      var i := s.at.port;
      s.(at := Copied(i, s.outputs[i], s.dirty[i] || s.applied[i] != s.outputs[i]))
    case Pass => s.(at := At(s.at.port + 1))
    case Drive => Driven(b, s, s.at.port, s.at.level)
    case Commit => Committed(b, s, s.at.port, s.at.level)
    case StartFlush => s.(at := Flushing(0))
    case Flush => s.(hw := Sent(b, s, s.at.reg), at := Flushing(s.at.reg + 1))
    case End => s.(at := Resting)
  }

  /** The level handed to the port, the applied image and the requested image agree. */
  predicate Agrees(s: State, i: nat)
    requires i < |s.outputs| && i < |s.applied| && i < |s.latch|
  {
    s.latch[i] == s.applied[i] == s.outputs[i]
  }

  /** The pin has the level last written: always for a direct port, for an expander port outside the part of the pass
      between its write and its register. */
  predicate Shows(b: Board, s: State, i: nat)
    requires Shaped(b, s) && Drives(b, i)
  {
    (b.ports[i].Direct? || s.at.Resting? || (s.at.Flushing? && b.ports[i].reg < s.at.reg)) ==> s.hw[i] == s.latch[i]
  }

  ghost predicate Inv(b: Board, s: State) {
    && Shaped(b, s)
    && (forall i :: 0 <= i < |b.ports| && Drives(b, i) && !s.dirty[i] ==> Agrees(s, i))
    && (forall i :: 0 <= i < |b.ports| && Drives(b, i) ==> Shows(b, s, i))
    && (s.at.Copied? ==>
          && (if s.at.due then s.dirty[s.at.port] else s.latch[s.at.port] == s.at.level)
          && (s.outputs[s.at.port] != s.at.level ==> s.dirty[s.at.port]))
    && (s.at.Wrote? ==> s.dirty[s.at.port] && s.latch[s.at.port] == s.at.level)
  }

  lemma {:induction false} StepKeepsInv(b: Board, s: State, step: Step)
    requires Inv(b, s) && Enabled(b, s, step)
    ensures Inv(b, Next(b, s, step))
  {
    var s' := Next(b, s, step);
    forall i | 0 <= i < |b.ports| && Drives(b, i) && !s'.dirty[i]
      ensures Agrees(s', i)
    {
      if !s.dirty[i] { assert Agrees(s, i); }
    }
    forall i | 0 <= i < |b.ports| && Drives(b, i)
      ensures Shows(b, s', i)
    {
      assert Shows(b, s, i);
    }
  }

  ghost predicate StepAt(b: Board, states: seq<State>, steps: seq<Step>, k: nat)
    requires k < |steps| && |states| == |steps| + 1
  {
    Shaped(b, states[k]) && Enabled(b, states[k], steps[k]) && states[k + 1] == Next(b, states[k], steps[k])
  }

  /** A run from a state in which everything not dirty agrees. */
  ghost predicate IsRun(b: Board, states: seq<State>, steps: seq<Step>) {
    && |states| == |steps| + 1 && Inv(b, states[0]) && states[0].at.Resting?
    && (forall k :: 0 <= k < |states| ==> Shaped(b, states[k]))
    && forall k :: 0 <= k < |steps| ==> StepAt(b, states, steps, k)
  }

  lemma RunKeepsInv(b: Board, states: seq<State>, steps: seq<Step>, k: nat)
    requires IsRun(b, states, steps) && k <= |steps|
    ensures Inv(b, states[k])
  {
    if k == 0 {
    } else {
      RunKeepsInv(b, states, steps, k - 1);
      assert StepAt(b, states, steps, k - 1);
      StepKeepsInv(b, states[k - 1], steps[k - 1]);
    }
  }

  /** Under every interleaving, also inside the apply window: a port that is not dirty was last written with the level
      last asked of it. Its pin shows that level too whenever the applier rests, and at any time if it is direct. */
  lemma {:induction false} CleanPortsAgree(b: Board, states: seq<State>, steps: seq<Step>, k: nat, i: nat)
    requires IsRun(b, states, steps) && k <= |steps| && Drives(b, i) && !states[k].dirty[i]
    ensures states[k].latch[i] == states[k].applied[i] == states[k].outputs[i]
    ensures states[k].at.Resting? || b.ports[i].Direct? ==> states[k].hw[i] == states[k].outputs[i]
  {
    RunKeepsInv(b, states, steps, k);
    assert Agrees(states[k], i) && Shows(b, states[k], i);
  }

  /** A clean expander port may still be on its old pin level inside a pass: what holds there is the latch. */
  lemma CleanMayLag() returns (b: Board, states: seq<State>, steps: seq<Step>)
    ensures IsRun(b, states, steps) && Drives(b, 0)
    ensures var s := states[|steps|]; !s.dirty[0] && s.at.At? && s.hw[0] != s.outputs[0]
  {
    b := Board([Expander(0)], 1);
    steps := [Write(0, true), Begin, Copy, Drive, Commit];
    var s0 := State([false], [false], [false], [false], [false], Resting);
    var s1 := Next(b, s0, Write(0, true));
    var s2 := Next(b, s1, Begin);
    var s3 := Next(b, s2, Copy);
    var s4 := Next(b, s3, Drive);
    var s5 := Next(b, s4, Commit);
    states := [s0, s1, s2, s3, s4, s5];
    assert Inv(b, s0);
    assert forall k :: 0 <= k < |steps| ==> StepAt(b, states, steps, k);
  }

  // ----- where levels come from

  /** Since state `j` this pass has gone on, and at `j` the image of the port was `level`. */
  ghost predicate HeldAt(states: seq<State>, j: nat, k: nat, port: nat, level: bool)
    requires j <= k < |states|
  {
    && port < |states[j].outputs| && states[j].outputs[port] == level
    && forall m :: j <= m <= k ==> !states[m].at.Resting?
  }

  /** What the applier holds, it copied from the image in this very pass. */
  lemma {:induction false} LevelWasHeld(b: Board, states: seq<State>, steps: seq<Step>, k: nat) returns (j: nat)
    requires IsRun(b, states, steps) && k <= |steps| && (states[k].at.Copied? || states[k].at.Wrote?)
    ensures j < k && steps[j] == Copy && HeldAt(states, j, k, states[k].at.port, states[k].at.level)
    decreases k
  {
    assert StepAt(b, states, steps, k - 1);
    if steps[k - 1].Copy? {
      j := k - 1;
    } else {
      j := LevelWasHeld(b, states, steps, k - 1);
    }
  }

  /** A latch that differs from its pin was written in this very pass, with a level the image then held. */
  lemma {:induction false} LatchWasHeld(b: Board, states: seq<State>, steps: seq<Step>, k: nat, i: nat) returns (j: nat)
    requires IsRun(b, states, steps) && k <= |steps| && Drives(b, i) && states[k].latch[i] != states[k].hw[i]
    ensures j < k && HeldAt(states, j, k, i, states[k].latch[i])
    decreases k
  {
    RunKeepsInv(b, states, steps, k);
    assert Shows(b, states[k], i);
    assert k > 0 ==> StepAt(b, states, steps, k - 1);
    if k == 0 {
      assert false;
    } else if steps[k - 1].Drive? && states[k - 1].at.port == i {
      j := LevelWasHeld(b, states, steps, k - 1);
    } else {
      j := LatchWasHeld(b, states, steps, k - 1, i);
    }
  }

  /** A pin only ever takes a level that the image really held earlier in the same pass. */
  lemma {:induction false} HardwareTakesHeldLevels(
      b: Board, states: seq<State>, steps: seq<Step>, k: nat, i: nat) returns (j: nat)
    requires IsRun(b, states, steps) && k < |steps| && Drives(b, i) && states[k].hw[i] != states[k + 1].hw[i]
    ensures j < k && HeldAt(states, j, k, i, states[k + 1].hw[i])
  {
    assert StepAt(b, states, steps, k);
    if steps[k].Drive? {
      j := LevelWasHeld(b, states, steps, k);
    } else {
      j := LatchWasHeld(b, states, steps, k, i);
    }
  }

  // ----- no write is lost

  predicate WritesTo(step: Step, i: nat) { step.Write? && step.port == i }

  /** A visit to port `i` under way that has copied its standing request. */
  predicate Applying(b: Board, s: State, i: nat, level: bool)
    requires Shaped(b, s) && i < |b.ports|
  {
    && s.outputs[i] == level
    && (s.at.Copied? || s.at.Wrote?) && s.at.port == i && s.at.level == level
    && (s.at.Copied? ==> s.at.due == s.dirty[i])
  }

  lemma ApplyingGoesOn(b: Board, s: State, step: Step, i: nat, level: bool)
    requires Inv(b, s) && Enabled(b, s, step) && Drives(b, i) && Applying(b, s, i, level) && !WritesTo(step, i)
    ensures var s' := Next(b, s, step);
      Applying(b, s', i, level) || (s'.at == At(i + 1) && !s'.dirty[i] && s'.latch[i] == s'.outputs[i] == level)
  {
    assert !s.dirty[i] ==> Agrees(s, i);
  }

  lemma ApplyingRequest(b: Board, states: seq<State>, steps: seq<Step>, j: nat, k: nat, i: nat)
    requires IsRun(b, states, steps) && j < k <= |steps|
    requires states[j].at == At(i) && steps[j] == Copy
    requires forall m :: j <= m < k ==> !WritesTo(steps[m], i)
    requires forall m :: j < m < k ==> !states[m].at.At?
    ensures Drives(b, i)
    ensures var s := states[k];
      Applying(b, s, i, states[j].outputs[i])
      || (s.at == At(i + 1) && !s.dirty[i] && s.latch[i] == s.outputs[i] == states[j].outputs[i])
    decreases k
  {
    RunKeepsInv(b, states, steps, k - 1);
    assert StepAt(b, states, steps, k - 1);
    assert StepAt(b, states, steps, j);
    if j + 1 == k {
      assert Agrees(states[j], i) || states[j].dirty[i];
    } else {
      ApplyingRequest(b, states, steps, j, k - 1, i);
      assert !WritesTo(steps[k - 1], i);
      ApplyingGoesOn(b, states[k - 1], steps[k - 1], i, states[j].outputs[i]);
    }
  }

  /** No write is lost: a visit to a port that no writer interrupts leaves it clean and last written with the requested
      level, which a direct pin shows at once. */
  lemma {:induction false} VisitAppliesTheRequest(
      b: Board, states: seq<State>, steps: seq<Step>, j: nat, k: nat, i: nat)
    requires IsRun(b, states, steps) && j < k <= |steps|
    requires states[j].at == At(i) && steps[j] == Copy && states[k].at == At(i + 1)
    requires forall m :: j <= m < k ==> !WritesTo(steps[m], i)
    requires forall m :: j < m < k ==> !states[m].at.At?
    ensures Drives(b, i) && !states[k].dirty[i] && states[k].latch[i] == states[k].outputs[i] == states[j].outputs[i]
    ensures b.ports[i].Direct? ==> states[k].hw[i] == states[k].outputs[i]
  {
    ApplyingRequest(b, states, steps, j, k, i);
    RunKeepsInv(b, states, steps, k);
    assert Shows(b, states[k], i);
  }

  /** A pass has begun since the image of port `i` took `level`, and what it has done for the port so far. */
  predicate Serving(b: Board, s: State, i: nat, level: bool)
    requires Shaped(b, s) && i < |b.ports|
  {
    match s.at
    case Resting => false
    case At(p) => i < p ==> s.latch[i] == level
    case Copied(p, l, _) => (i == p ==> l == level) && (i < p ==> s.latch[i] == level)
    case Wrote(p, l) => i <= p ==> s.latch[i] == level
    case Flushing(_) => s.latch[i] == level
  }

  lemma ServingGoesOn(b: Board, s: State, step: Step, i: nat, level: bool)
    requires Inv(b, s) && Enabled(b, s, step) && Drives(b, i) && Serving(b, s, i, level) && s.outputs[i] == level
    ensures var s' := Next(b, s, step);
      if step.End? then s'.latch[i] == s'.hw[i] == level else Serving(b, s', i, level)
  {
    assert Shows(b, s, i);
  }

  lemma ServingRun(b: Board, states: seq<State>, steps: seq<Step>, j: nat, k: nat, i: nat)
    requires IsRun(b, states, steps) && j < k <= |steps| && Drives(b, i) && steps[j] == Begin
    requires forall m :: j < m < k ==> !steps[m].End?
    requires forall m :: j <= m <= k ==> states[m].outputs[i] == states[j].outputs[i]
    ensures Serving(b, states[k], i, states[j].outputs[i])
    decreases k
  {
    assert StepAt(b, states, steps, k - 1);
    if j + 1 == k {
    } else {
      ServingRun(b, states, steps, j, k - 1, i);
      RunKeepsInv(b, states, steps, k - 1);
      ServingGoesOn(b, states[k - 1], steps[k - 1], i, states[j].outputs[i]);
    }
  }

  /** One whole pass during which the request stands puts it on the pin, whatever the port's backend, also if writers
      keep repeating it. */
  lemma {:induction false} PassAppliesTheRequest(b: Board, states: seq<State>, steps: seq<Step>, j: nat, k: nat, i: nat)
    requires IsRun(b, states, steps) && j < k < |steps| && Drives(b, i) && steps[j] == Begin && steps[k] == End
    requires forall m :: j < m < k ==> !steps[m].End?
    requires forall m :: j <= m <= k ==> states[m].outputs[i] == states[j].outputs[i]
    ensures states[k + 1].hw[i] == states[k + 1].latch[i] == states[j].outputs[i]
  {
    ServingRun(b, states, steps, j, k, i);
    RunKeepsInv(b, states, steps, k);
    assert StepAt(b, states, steps, k);
    ServingGoesOn(b, states[k], End, i, states[j].outputs[i]);
  }

  // ----- two ports changed by the same pass

  /** The pass has brought the request it found for port `i` to the pin. */
  predicate Reached(b: Board, at: Applier, i: nat)
    requires Drives(b, i)
  {
    if b.ports[i].Direct? then
      match at
      case Resting => false
      case At(p) => i < p
      case Copied(p, _, _) => i < p
      case Wrote(p, _) => i <= p
      case Flushing(_) => true
    else at.Flushing? && b.ports[i].reg < at.reg
  }

  /** A pass brings out the direct ports in their order, then the expander registers in theirs. */
  predicate SentBefore(b: Board, i: nat, j: nat)
    requires Drives(b, i) && Drives(b, j)
  {
    if b.ports[i].Direct? then b.ports[j].Direct? ==> i < j
    else b.ports[j].Expander? && b.ports[i].reg < b.ports[j].reg
  }

  /** During the pass the pin of port `i` goes from `was` to `level`, when the pass reaches it. */
  predicate Bringing(b: Board, s: State, i: nat, level: bool, was: bool)
    requires Shaped(b, s) && Drives(b, i)
  {
    && Serving(b, s, i, level) && s.outputs[i] == level
    && s.hw[i] == (if Reached(b, s.at, i) then level else was)
    && ((s.at.At? || s.at.Copied?) && i >= s.at.port ==> s.latch[i] == was)
    && (s.at.Wrote? && i > s.at.port ==> s.latch[i] == was)
  }

  lemma BringingGoesOn(b: Board, s: State, step: Step, i: nat, level: bool, was: bool)
    requires Inv(b, s) && Enabled(b, s, step) && Drives(b, i) && Bringing(b, s, i, level, was) && !step.End?
    requires Next(b, s, step).outputs[i] == level
    ensures Bringing(b, Next(b, s, step), i, level, was)
  {
    ServingGoesOn(b, s, step, i, level);
    assert Shows(b, s, i);
  }

  lemma BringingRun(b: Board, states: seq<State>, steps: seq<Step>, j: nat, k: nat, i: nat)
    requires IsRun(b, states, steps) && j < k <= |steps| && Drives(b, i) && steps[j] == Begin
    requires forall m :: j < m < k ==> !steps[m].End?
    requires forall m :: j <= m <= k ==> states[m].outputs[i] == states[j].outputs[i]
    ensures Bringing(b, states[k], i, states[j].outputs[i], states[j].hw[i])
    decreases k
  {
    RunKeepsInv(b, states, steps, k - 1);
    assert StepAt(b, states, steps, k - 1);
    assert Shows(b, states[k - 1], i);
    if j + 1 == k {
    } else {
      BringingRun(b, states, steps, j, k - 1, i);
      BringingGoesOn(b, states[k - 1], steps[k - 1], i, states[j].outputs[i], states[j].hw[i]);
    }
  }

  lemma ReachedInOrder(b: Board, at: Applier, i: nat, j: nat)
    requires Drives(b, i) && Drives(b, j) && Reached(b, at, i) && !Reached(b, at, j)
    ensures SentBefore(b, i, j)
  {
  }

  /** The step that reaches a port does not reach one that is sent after it. */
  lemma ReachesOne(b: Board, s: State, step: Step, i: nat, j: nat)
    requires Shaped(b, s) && Enabled(b, s, step) && Drives(b, i) && Drives(b, j) && SentBefore(b, i, j)
    requires !s.at.Resting? && !Reached(b, s.at, i) && Reached(b, Next(b, s, step).at, i)
    ensures !Reached(b, Next(b, s, step).at, j)
  {
  }

  /** A whole pass, steps `j` to `k`, during which the requests of the two ports stand. */
  ghost predicate WholePass(b: Board, states: seq<State>, steps: seq<Step>, j: nat, k: nat, x: nat, y: nat) {
    && IsRun(b, states, steps) && j < k < |steps| && Drives(b, x) && Drives(b, y)
    && steps[j] == Begin && steps[k] == End
    && (forall m :: j < m < k ==> !steps[m].End?)
    && (forall m :: j <= m <= k ==> states[m].outputs[x] == states[j].outputs[x])
    && (forall m :: j <= m <= k ==> states[m].outputs[y] == states[j].outputs[y])
  }

  /** The pin of `x` shows its request and the pin of `y` does not. */
  predicate Ahead(b: Board, s: State, x: nat, y: nat)
    requires Shaped(b, s) && Drives(b, x) && Drives(b, y)
  {
    s.hw[x] == s.outputs[x] && s.hw[y] != s.outputs[y]
  }

  lemma AheadNeedsOrder(b: Board, states: seq<State>, steps: seq<Step>, j: nat, k: nat, x: nat, y: nat, m: nat)
    requires WholePass(b, states, steps, j, k, x, y) && j <= m <= k + 1
    requires states[j].hw[x] != states[j].outputs[x] && Ahead(b, states[m], x, y)
    ensures states[j].hw[y] != states[j].outputs[y] && SentBefore(b, x, y)
  {
    if m <= k {
      if m > j {
        BringingRun(b, states, steps, j, m, x);
        BringingRun(b, states, steps, j, m, y);
        ReachedInOrder(b, states[m].at, x, y);
      }
    } else {
      assert StepAt(b, states, steps, k);
      PassAppliesTheRequest(b, states, steps, j, k, y);
    }
  }

  /** The first state in which the pass has reached a port. */
  lemma FirstReached(
      b: Board, states: seq<State>, steps: seq<Step>, j: nat, k: nat, x: nat, y: nat, m: nat) returns (f: nat)
    requires WholePass(b, states, steps, j, k, x, y) && j < m <= k && Reached(b, states[m].at, x)
    ensures j + 1 < f <= m && Reached(b, states[f].at, x) && !Reached(b, states[f - 1].at, x)
    decreases m
  {
    assert StepAt(b, states, steps, j) && StepAt(b, states, steps, m - 1);
    if m - 1 > j && Reached(b, states[m - 1].at, x) {
      f := FirstReached(b, states, steps, j, k, x, y, m - 1);
    } else {
      f := m;
    }
  }

  lemma OrderPutsAhead(b: Board, states: seq<State>, steps: seq<Step>, j: nat, k: nat, x: nat, y: nat) returns (f: nat)
    requires WholePass(b, states, steps, j, k, x, y) && SentBefore(b, x, y)
    requires states[j].hw[y] != states[j].outputs[y]
    ensures j <= f <= k && Ahead(b, states[f], x, y)
  {
    assert StepAt(b, states, steps, k);
    f := FirstReached(b, states, steps, j, k, x, y, k);
    assert StepAt(b, states, steps, f - 1);
    BringingRun(b, states, steps, j, f - 1, x);
    ReachesOne(b, states[f - 1], steps[f - 1], x, y);
    BringingRun(b, states, steps, j, f, x);
    BringingRun(b, states, steps, j, f, y);
  }

  /** If one pass finds both ports changed, there is a moment at which `x` shows its new level and `y` still its old
      one if and only if `y` was not already on its new level before the pass, and `x` is sent before it. */
  lemma {:induction false} PassOverlapsIff(
      b: Board, states: seq<State>, steps: seq<Step>, j: nat, k: nat, x: nat, y: nat)
    requires WholePass(b, states, steps, j, k, x, y) && states[j].hw[x] != states[j].outputs[x]
    ensures (exists m :: j <= m <= k + 1 && Ahead(b, states[m], x, y))
      <==> states[j].hw[y] != states[j].outputs[y] && SentBefore(b, x, y)
  {
    if m :| j <= m <= k + 1 && Ahead(b, states[m], x, y) {
      AheadNeedsOrder(b, states, steps, j, k, x, y, m);
    }
    if states[j].hw[y] != states[j].outputs[y] && SentBefore(b, x, y) {
      var f := OrderPutsAhead(b, states, steps, j, k, x, y);
    }
  }

  /** A write that comes inside the window and does not happen to restore the copied level leaves the port dirty, so
      that the next pass applies it. */
  lemma {:induction false} CommitSeesLateWrites(b: Board, s: State)
    requires Inv(b, s) && s.at.Wrote?
    ensures var s' := Next(b, s, Commit);
      s'.dirty[s.at.port] <==> s'.latch[s.at.port] != s'.outputs[s.at.port]
  {
  }

  // ----- the object

  datatype Caps = Caps(none: bool, input: bool, output: bool, input_only: bool)

  predicate CanOutput(c: Caps) { c.output && !c.input_only }

  class IoStack {
    const caps: seq<Caps>
    const backends: seq<Backend>
    const regs: nat
    const outputs: array<bool>
    const applied: array<bool>
    const dirty: array<bool>
    const latch: array<bool>
    const hw: array<bool>

    constructor (caps: seq<Caps>, board: Board)
      requires |board.ports| == |caps| && BoardOk(board)
      ensures Valid() && this.caps == caps && backends == board.ports && regs == board.regs
      ensures fresh(outputs) && fresh(applied) && fresh(dirty) && fresh(latch) && fresh(hw)
    {
      this.caps, backends, regs := caps, board.ports, board.regs;
      outputs := new bool[|caps|](_ => false);
      applied := new bool[|caps|](_ => false);
      dirty := new bool[|caps|](_ => false);
      latch := new bool[|caps|](_ => false);
      hw := new bool[|caps|](_ => false);
    }

    ghost predicate Valid() {
      && |backends| == |caps| && BoardOk(Board(backends, regs))
      && outputs.Length == |caps| && applied.Length == |caps| && dirty.Length == |caps|
      && latch.Length == |caps| && hw.Length == |caps|
      && outputs != applied && outputs != dirty && outputs != latch && outputs != hw && applied != dirty
      && applied != latch && applied != hw && dirty != latch && dirty != hw && latch != hw
    }

    ghost predicate Agreed(i: nat)
      requires Valid() && i < |caps|
      reads outputs, applied, latch
    {
      latch[i] == applied[i] == outputs[i]
    }

    predicate Drives(i: nat)
      requires i < |caps|
    {
      !caps[i].none && CanOutput(caps[i])
    }

    /** Everything that is not dirty agrees. */
    ghost predicate Consistent()
      requires Valid()
      reads outputs, applied, dirty, latch
    {
      forall i :: 0 <= i < |caps| && Drives(i) && !dirty[i] ==> Agreed(i)
    }

    /** Between passes every pin shows what its port was last written with. */
    ghost predicate Flushed()
      requires Valid()
      reads latch, hw
    {
      forall i :: 0 <= i < |caps| && !backends[i].NoOutput? ==> hw[i] == latch[i]
    }

    /** `write`; the lock may be refused. */
    method Write(id: nat, level: bool, locked: bool) returns (ok: bool)
      requires Valid()
      modifies outputs, dirty
      ensures ok <==> locked && id < |caps| && caps[id].output && !caps[id].input_only
      ensures outputs[..] == if ok then old(outputs[..])[id := level] else old(outputs[..])
      ensures dirty[..] == if ok then old(dirty[..])[id := true] else old(dirty[..])
      ensures old(Consistent()) ==> Consistent()
    {
      if !locked { return false; }
      if id >= |caps| { return false; }
      if !CanOutput(caps[id]) { return false; }
      ghost var was := Consistent();
      outputs[id] := level;
      dirty[id] := true;
      if was {
        forall i | 0 <= i < |caps| && Drives(i) && !dirty[i] ensures Agreed(i) {
          assert old(Agreed(i));
        }
      }
      return true;
    }

    /** The output ports `initImages` comes to: an input that cannot be read ends the visit to its port. */
    predicate Inits(i: nat, read_ok: seq<bool>)
      requires i < |caps| && |read_ok| == |caps|
    {
      Drives(i) && (caps[i].input ==> read_ok[i])
    }

    /** The output half of `initImages`: `last[i]` is what `PortIO` remembers of its own last write. A port it comes to
        that is not dirty agrees afterwards exactly if `PortIO` remembers it or its image happened to be right. */
    method InitOutputs(read_ok: seq<bool>, last: seq<Option<bool>>)
      requires Valid() && |last| == |caps| && |read_ok| == |caps|
      requires forall i :: 0 <= i < |caps| && last[i].Some? ==> last[i].value == latch[i]
      modifies outputs, applied
      ensures forall i :: 0 <= i < |caps| && Inits(i, read_ok) && !dirty[i] ==>
        (Agreed(i) <==> last[i].Some? || old(outputs[i]) == latch[i])
      ensures forall i :: 0 <= i < |caps| && !(Inits(i, read_ok) && !dirty[i]) ==>
        outputs[i] == old(outputs[i]) && applied[i] == old(applied[i])
    {
      for i := 0 to |caps|
        invariant forall j :: 0 <= j < i && Inits(j, read_ok) && !dirty[j] ==>
          (Agreed(j) <==> last[j].Some? || old(outputs[j]) == latch[j])
        invariant forall j :: 0 <= j < |caps| && (j >= i || !(Inits(j, read_ok) && !dirty[j])) ==>
          outputs[j] == old(outputs[j]) && applied[j] == old(applied[j])
      {
        if caps[i].none { continue; }
        if caps[i].input && !read_ok[i] { continue; }
        if CanOutput(caps[i]) {
          if !dirty[i] {
            if last[i].Some? { outputs[i] := last[i].value; }
            applied[i] := outputs[i];
          }
        }
      }
    }

    /** One pass of `applyOutputs` that no writer interrupts: every output ends on its image, pin included. */
    method ApplyOutputs()
      requires Valid() && Consistent() && Flushed()
      modifies applied, dirty, latch, hw
      ensures Flushed()
      ensures forall i :: 0 <= i < |caps| && Drives(i) ==> Agreed(i) && !dirty[i]
      ensures forall i :: 0 <= i < |caps| && !Drives(i) ==>
        latch[i] == old(latch[i]) && applied[i] == old(applied[i]) && dirty[i] == old(dirty[i])
      ensures forall i :: 0 <= i < |caps| && Drives(i) && !old(dirty[i]) ==> latch[i] == old(latch[i])
    {
      for i := 0 to |caps|
        invariant forall j :: 0 <= j < i && Drives(j) ==> Agreed(j) && !dirty[j]
        invariant forall j :: 0 <= j < |caps| && (j >= i || !Drives(j)) ==>
          latch[j] == old(latch[j]) && applied[j] == old(applied[j]) && dirty[j] == old(dirty[j])
        invariant forall j :: 0 <= j < |caps| && Drives(j) && !old(dirty[j]) ==> latch[j] == old(latch[j])
        invariant forall j :: 0 <= j < |caps| && backends[j].Direct? ==> hw[j] == latch[j]
      {
        if !caps[i].none {
          if CanOutput(caps[i]) {
            assert !old(dirty[i]) ==> old(Agreed(i));
            var v := outputs[i];
            var should_apply := dirty[i] || applied[i] != v;
            if should_apply {
              WritePort(i, v);
              if outputs[i] == v {
                applied[i] := v;
                dirty[i] := false;
              } else {
                dirty[i] := true;
              }
            }
          }
        }
      }
      FlushAll();
    }

    /** `PortIO::write`: a direct pin follows at once, an expander is only latched. */
    method WritePort(i: nat, level: bool)
      requires Valid() && i < |caps|
      modifies latch, hw
      ensures latch[..] == old(latch[..])[i := level]
      ensures hw[..] == if backends[i].Direct? then old(hw[..])[i := level] else old(hw[..])
    {
      latch[i] := level;
      if backends[i].Direct? { hw[i] := level; }
    }

    /** `PortIO::loop`: the expander registers, one after the other. */
    method FlushAll()
      requires Valid() && forall i :: 0 <= i < |caps| && backends[i].Direct? ==> hw[i] == latch[i]
      modifies hw
      ensures Flushed()
    {
      for r := 0 to regs
        invariant forall i :: 0 <= i < |caps| && backends[i].Direct? ==> hw[i] == latch[i]
        invariant forall i :: 0 <= i < |caps| && backends[i].Expander? && backends[i].reg < r ==> hw[i] == latch[i]
      {
        for i := 0 to |caps|
          invariant forall j :: 0 <= j < |caps| && backends[j].Direct? ==> hw[j] == latch[j]
          invariant forall j :: 0 <= j < |caps| && backends[j].Expander? && backends[j].reg < r ==> hw[j] == latch[j]
          invariant forall j :: 0 <= j < i && backends[j].Expander? && backends[j].reg == r ==> hw[j] == latch[j]
        {
          if backends[i] == Expander(r) { hw[i] := latch[i]; }
        }
      }
      assert forall i :: 0 <= i < |caps| && backends[i].Expander? ==> Board(backends, regs).ports[i].reg < regs;
    }
  }
}
