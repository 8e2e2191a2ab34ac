/** The modem driver's command ring: a bounded queue whose head is the command in flight, with callbacks that may
    enqueue while a command completes. */
module Sim800l {
  import opened Clock
  import opened Options

  const QUEUE_SIZE := 16
  const MAX_LINE_LEN := 256
  const PAYLOAD_TIMEOUT_MS := 15000
  const PROMPT_TIMEOUT_MS := 3000

  datatype Cmd = Cmd(text: string, expected: string, timeout_ms: uint32)

  // ----- the queue as a value

  /** `ring` holds the commands not yet completed, head first. The histories list every command accepted, written to
      the modem, and completed so far. */
  datatype Modem = Modem(ring: seq<Cmd>, waiting: bool, accepted: seq<string>, sent: seq<string>, done: seq<string>)

  const IDLE := Modem([], false, [], [], [])

  function Texts(ring: seq<Cmd>): (t: seq<string>)
    ensures |t| == |ring|
  {
    seq(|ring|, i requires 0 <= i < |ring| => ring[i].text)
  }

  function Enqueued(m: Modem, c: Cmd): Modem {
    if |m.ring| >= QUEUE_SIZE then m else m.(ring := m.ring + [c], accepted := m.accepted + [c.text])
  }

  /** Callbacks enqueue while the completing command still occupies the head. */
  function AllEnqueued(m: Modem, more: seq<Cmd>): (r: Modem)
    ensures r.waiting == m.waiting && r.sent == m.sent && r.done == m.done && |r.ring| >= |m.ring|
    decreases |more|
  {
    if more == [] then m else AllEnqueued(Enqueued(m, more[0]), more[1..])
  }

  function NextStarted(m: Modem): Modem {
    if m.ring == [] then m else m.(waiting := true, sent := m.sent + [m.ring[0].text])
  }

  function HeadDropped(m: Modem): Modem {
    if m.ring == [] then m.(waiting := false) else m.(waiting := false, ring := m.ring[1..])
  }

  function Finished(m: Modem, more: seq<Cmd>): Modem
    requires m.ring != []
  {
    var m' := AllEnqueued(m, more);
    HeadDropped(m'.(done := m'.done + [m.ring[0].text]))
  }

  /** Exactly once, in order: what was accepted is what is done followed by what waits, and what was sent is what is
      done followed by the command in flight, which is the head. */
  predicate Lawful(m: Modem) {
    && |m.ring| <= QUEUE_SIZE
    && (m.waiting ==> m.ring != [])
    && m.accepted == m.done + Texts(m.ring)
    && m.sent == m.done + if m.waiting then [m.ring[0].text] else []
  }

  lemma {:induction false} EnqueuedLawful(m: Modem, c: Cmd)
    requires Lawful(m)
    ensures Lawful(Enqueued(m, c)) && m.accepted <= Enqueued(m, c).accepted
  {
    if |m.ring| < QUEUE_SIZE {
      assert Texts(m.ring + [c]) == Texts(m.ring) + [c.text];
    }
  }

  lemma {:induction false} AllEnqueuedLawful(m: Modem, more: seq<Cmd>)
    requires Lawful(m)
    ensures var r := AllEnqueued(m, more);
      Lawful(r) && m.accepted <= r.accepted && (m.ring != [] ==> r.ring[0] == m.ring[0])
    decreases |more|
  {
    if more == [] {
    } else {
      EnqueuedLawful(m, more[0]);
      AllEnqueuedLawful(Enqueued(m, more[0]), more[1..]);
    }
  }

  lemma {:induction false} FinishedLawful(m: Modem, more: seq<Cmd>)
    requires Lawful(m) && m.waiting
    ensures var r := Finished(m, more);
      && Lawful(r) && !r.waiting && m.accepted <= r.accepted && r.sent == m.sent
      && r.done == m.sent && r.done == m.done + [m.ring[0].text]
  {
    AllEnqueuedLawful(m, more);
    var m' := AllEnqueued(m, more);
    assert Texts(m'.ring) == [m'.ring[0].text] + Texts(m'.ring[1..]);
  }

  // ----- runs

  /** What drives the queue. A completion, by an answer or a time-out, happens only in flight; a start only out of
      it. */
  datatype Event = Enqueue(cmd: Cmd) | Start | Complete(more: seq<Cmd>)

  predicate Possible(m: Modem, e: Event) {
    match e
    case Enqueue(_) => true
    case Start => !m.waiting
    case Complete(_) => m.waiting && m.ring != []
  }

  function Step(m: Modem, e: Event): Modem
    requires Possible(m, e)
  {
    match e
    case Enqueue(c) => Enqueued(m, c)
    case Start => NextStarted(m)
    case Complete(more) => Finished(m, more)
  }

  ghost predicate StepAt(states: seq<Modem>, events: seq<Event>, k: nat)
    requires k < |events| && |states| == |events| + 1
  {
    Possible(states[k], events[k]) && states[k + 1] == Step(states[k], events[k])
  }

  ghost predicate IsRun(states: seq<Modem>, events: seq<Event>) {
    |states| == |events| + 1 && states[0] == IDLE && forall k :: 0 <= k < |events| ==> StepAt(states, events, k)
  }

  /** Over every run the queue is a first-in first-out queue that completes every accepted command at most once, in
      order, having sent it exactly once. */
  lemma {:induction false} ExactlyOnceInOrder(states: seq<Modem>, events: seq<Event>, k: nat)
    requires IsRun(states, events) && k <= |events|
    ensures Lawful(states[k])
    ensures states[k].done <= states[k].sent <= states[k].accepted && |states[k].sent| <= |states[k].done| + 1
    ensures |states[k].accepted| - |states[k].done| == |states[k].ring| <= QUEUE_SIZE
  {
    if k == 0 {
    } else {
      ExactlyOnceInOrder(states, events, k - 1);
      assert StepAt(states, events, k - 1);
      match events[k - 1]
      case Enqueue(c) => EnqueuedLawful(states[k - 1], c);
      case Start =>
      case Complete(more) => FinishedLawful(states[k - 1], more);
    }
    LawfulPrefixes(states[k]);
  }

  /** `events` lead from `m` to `m'`. */
  ghost predicate Reaches(m: Modem, events: seq<Event>, m': Modem)
    decreases |events|
  {
    if events == [] then m' == m
    else Possible(m, events[0]) && Reaches(Step(m, events[0]), events[1..], m')
  }

  lemma {:induction false} ReachesJoin(m: Modem, a: seq<Event>, m1: Modem, b: seq<Event>, m2: Modem)
    requires Reaches(m, a, m1) && Reaches(m1, b, m2)
    ensures Reaches(m, a + b, m2)
    decreases |a|
  {
    if a == [] {
      assert a + b == b;
    } else {
      ReachesJoin(Step(m, a[0]), a[1..], m1, b, m2);
      assert (a + b)[1..] == a[1..] + b;
    }
  }

  lemma ReachesInOne(m: Modem, e: Event)
    requires Possible(m, e)
    ensures Reaches(m, [e], Step(m, e))
  {
    assert [e][1..] == [];
  }

  lemma {:induction false} EnqueuesReach(m: Modem, more: seq<Cmd>) returns (events: seq<Event>)
    ensures Reaches(m, events, AllEnqueued(m, more))
    decreases |more|
  {
    events := [];
    if more == [] {
    } else {
      var rest := EnqueuesReach(Enqueued(m, more[0]), more[1..]);
      ReachesInOne(m, Enqueue(more[0]));
      ReachesJoin(m, [Enqueue(more[0])], Enqueued(m, more[0]), rest, AllEnqueued(m, more));
      events := [Enqueue(more[0])] + rest;
    }
  }

  lemma LawfulPrefixes(m: Modem)
    requires Lawful(m)
    ensures m.done <= m.sent <= m.accepted
  {
    if m.waiting { assert m.accepted == (m.done + [m.ring[0].text]) + Texts(m.ring[1..]); }
  }

  // ----- answers

  predicate StartsWith(line: string, p: string) { p <= line }

  predicate Contains(line: string, sub: string) {
    sub <= line || (line != "" && Contains(line[1..], sub))
  }

  /** The unsolicited lines, taken before any command sees them. */
  predicate IsUrc(line: string) {
    || StartsWith(line, "RING") || StartsWith(line, "+CLIP:") || StartsWith(line, "+CMTI:")
    || StartsWith(line, "+CUSD:") || StartsWith(line, "+HTTPACTION:")
  }

  predicate IsErrorLine(line: string) {
    line == "ERROR" || StartsWith(line, "+CME ERROR") || StartsWith(line, "+CMS ERROR")
  }

  datatype Effect = Ignored | SendPayload | Finish(ok: bool) | Collected

  /** What a line means to the command in flight. */
  function EffectOf(waiting: bool, expected: string, payload_pending: bool, line: string): Effect {
    if IsUrc(line) || !waiting then Ignored
    else if expected == ">" && line == ">" then (if payload_pending then SendPayload else Finish(true))
    else if IsErrorLine(line) then Finish(false)
    else if expected != "" && Contains(line, expected) then Finish(true)
    else Collected
  }

  /** What a line does to the queue; `more` is what the callbacks it runs enqueue. */
  function Answered(m: Modem, expected: string, payload_pending: bool, line: string, more: seq<Cmd>): Modem
    requires m.waiting ==> m.ring != []
  {
    match EffectOf(m.waiting, expected, payload_pending, line)
    case Finish(_) => Finished(m, more)
    case Ignored => if IsUrc(line) then AllEnqueued(m, more) else m
    case _ => m
  }

  /** Whatever a line does is a run of the queue's own events. */
  lemma {:induction false} AnswersAreEvents(
      m: Modem, expected: string, payload_pending: bool, line: string, more: seq<Cmd>) returns (events: seq<Event>)
    requires m.waiting ==> m.ring != []
    ensures Reaches(m, events, Answered(m, expected, payload_pending, line, more))
  {
    events := [];
    match EffectOf(m.waiting, expected, payload_pending, line)
    case Finish(_) =>
      events := [Complete(more)];
      ReachesInOne(m, Complete(more));
    case Ignored => if IsUrc(line) { events := EnqueuesReach(m, more); }
    case _ =>
  }

  /** What one received character makes of the line buffer: a whole line, if it ends one, and what stays buffered. While
      the prompt is awaited, a `>` is a line of its own. */
  function Fed(prompt: bool, buf: string, c: char): (r: (Option<string>, string))
    ensures |buf| <= MAX_LINE_LEN ==> |r.1| <= MAX_LINE_LEN
  {
    if prompt && c == '>' then (Some(">"), buf)
    else if c == '\n' then (if Trim(buf) == "" then None else Some(Trim(buf)), "")
    else if c == '\r' then (None, buf)
    else (None, if |buf| < MAX_LINE_LEN then buf + [c] else "")
  }

  /** The answers that the USSD and HTTP commands ask for, `+CUSD:` and `+HTTPACTION:`, are consumed as unsolicited
      lines and never complete them: such a command ends only by an error line, by its time-out, or by a line that
      carries the expected text somewhere after its start. */
  lemma {:induction false} PrefixedAnswersNeverComplete(expected: string, payload_pending: bool, line: string)
    requires expected == "+CUSD:" || expected == "+HTTPACTION:"
    ensures EffectOf(true, expected, payload_pending, line) == Finish(true) <==>
      !IsUrc(line) && !IsErrorLine(line) && Contains(line, expected)
    ensures StartsWith(line, expected) ==> EffectOf(true, expected, payload_pending, line) == Ignored
  {
  }

  // ----- answers in terms of their text

  predicate OccursAt(line: string, sub: string, p: nat) {
    p + |sub| <= |line| && line[p..p + |sub|] == sub
  }

  lemma {:induction false} ContainsOccurs(line: string, sub: string, p: nat)
    requires OccursAt(line, sub, p)
    ensures Contains(line, sub)
    decreases p
  {
    if p == 0 {
    } else {
      assert line[1..][p - 1..p - 1 + |sub|] == line[p..p + |sub|];
      ContainsOccurs(line[1..], sub, p - 1);
    }
  }

  lemma {:induction false} OccursContains(line: string, sub: string) returns (p: nat)
    requires Contains(line, sub)
    ensures OccursAt(line, sub, p)
    decreases |line|
  {
    p := 0;
    if sub <= line {
    } else {
      var q := OccursContains(line[1..], sub);
      p := q + 1;
      assert line[1..][q..q + |sub|] == line[p..p + |sub|];
    }
  }

  /** When a line completes the command in flight, by the text of the line. Unsolicited lines never do. `ERROR` and
      lines that begin with `+CME ERROR` or `+CMS ERROR` always do. Any other line does if the expected text occurs in
      it, but a bare prompt that is awaited only if no payload is to be sent. */
  lemma {:induction false} CompletesIff(
      m: Modem, expected: string, payload_pending: bool, line: string, more: seq<Cmd>)
    requires Lawful(m) && m.waiting
    ensures var unsolicited := "RING" <= line || "+CLIP:" <= line || "+CMTI:" <= line || "+CUSD:" <= line ||
              "+HTTPACTION:" <= line;
      var failed := line == "ERROR" || "+CME ERROR" <= line || "+CMS ERROR" <= line;
      var prompted := expected == ">" && line == ">";
      var m' := Answered(m, expected, payload_pending, line, more);
      && (m'.done == m.done || m'.done == m.done + [m.ring[0].text])
      && (m'.done != m.done <==>
            !unsolicited && (failed || if prompted then !payload_pending
                                       else expected != "" && exists p: nat :: OccursAt(line, expected, p)))
      && (m'.waiting <==> m'.done == m.done)
  {
    if Contains(line, expected) { var p := OccursContains(line, expected); }
    forall p: nat | OccursAt(line, expected, p) ensures Contains(line, expected) { ContainsOccurs(line, expected, p); }
    FinishedLawful(m, more);
  }

  /** What is left in the line buffer by characters that end no line. */
  function Filled(buf: string, text: string): string
    decreases |text|
  {
    if text == "" then buf else Filled(Fed(false, buf, text[0]).1, text[1..])
  }

  predicate NoLineEnd(text: string) { forall c <- text :: c != '\n' && c != '\r' }

  lemma {:induction false} FillsUp(buf: string, text: string)
    requires NoLineEnd(text) && |buf| + |text| <= 256
    ensures Filled(buf, text) == buf + text
    decreases |text|
  {
    if text == "" {
    } else {
      assert text[0] in text && forall c <- text[1..] :: c in text;
      FillsUp(buf + [text[0]], text[1..]);
      assert buf + text == (buf + [text[0]]) + text[1..];
    }
  }

  /** A line of up to 256 characters, ended by a carriage return and a newline, arrives whole, without the blanks around
      it. */
  lemma {:induction false} LineArrives(text: string) returns (before: string, after: string)
    requires NoLineEnd(text) && |text| <= 256
    ensures var buf := Filled("", text);
      var (none, buf') := Fed(false, buf, '\r');
      var (line, rest) := Fed(false, buf', '\n');
      none.None? && rest == "" && text == before + (if line.Some? then line.value else "") + after
    ensures (forall c <- before + after :: IsSpace(c))
    ensures var line := Fed(false, Fed(false, Filled("", text), '\r').1, '\n').0;
      line.Some? ==> line.value != "" && !IsSpace(line.value[0]) && !IsSpace(line.value[|line.value| - 1])
  {
    FillsUp("", text);
    assert "" + text == text;
    before, after := TrimTakes(text);
  }

  /** While the prompt is awaited, `>` is a line wherever it comes, and leaves what is buffered. */
  lemma {:induction false} PromptArrives(buf: string, c: char)
    ensures Fed(true, buf, c) == if c == '>' then (Some(">"), buf) else Fed(false, buf, c)
  {
  }

  lemma {:induction false} TrimTakes(s: string) returns (before: string, after: string)
    ensures s == before + Trim(s) + after && forall c <- before + after :: IsSpace(c)
    ensures Trim(s) != "" ==> !IsSpace(Trim(s)[0]) && !IsSpace(Trim(s)[|Trim(s)| - 1])
    decreases |s|
  {
    before, after := "", "";
    if s == "" {
    } else if IsSpace(s[0]) {
      before, after := TrimTakes(s[1..]);
      before := [s[0]] + before;
    } else if IsSpace(s[|s| - 1]) {
      before, after := TrimTakes(s[..|s| - 1]);
      after := after + [s[|s| - 1]];
    }
  }

  // ----- the driver in time

  /** The queue, when the command in flight times out, and whether it still awaits the prompt for its payload, which
      would put that off once. */
  datatype Driver = Driver(m: Modem, deadline: nat, open: bool)

  predicate SameFlight(d: Driver, d': Driver, now: nat) {
    || (d'.deadline == d.deadline && d'.open == d.open)
    || (d.open && !d'.open && now <= d'.deadline <= now + PAYLOAD_TIMEOUT_MS)
  }

  /** What received characters do to the command in flight: nothing that counts, the payload sent, or its completion.
      Other commands only join the queue behind it. */
  predicate Carries(d: Driver, d': Driver, now: nat) {
    if !d.m.waiting then !d'.m.waiting && d'.m.done == d.m.done && d.m.ring <= d'.m.ring
    else if d'.m.waiting then d'.m.done == d.m.done && d.m.ring <= d'.m.ring && SameFlight(d, d', now)
    else d.m.ring != [] && d'.m.done == d.m.done + [d.m.ring[0].text] && d.m.ring[1..] <= d'.m.ring
  }

  lemma CarriesOn(d: Driver, d1: Driver, d2: Driver, now: nat)
    requires Carries(d, d1, now) && Carries(d1, d2, now) && (d.m.waiting ==> d.m.ring != [])
    ensures Carries(d, d2, now)
  {
    if d.m.waiting && d1.m.waiting && !d2.m.waiting {
      assert d.m.ring[1..] <= d1.m.ring[1..];
    }
  }

  lemma {:induction false} EnqueuesBehind(m: Modem, more: seq<Cmd>)
    ensures m.ring <= AllEnqueued(m, more).ring
    decreases |more|
  {
    if more == [] {
    } else {
      EnqueuesBehind(Enqueued(m, more[0]), more[1..]);
    }
  }

  lemma FinishCarries(d: Driver, d': Driver, more: seq<Cmd>, now: nat)
    requires d.m.waiting && d.m.ring != [] && d'.m == Finished(d.m, more)
    ensures Carries(d, d', now)
  {
    EnqueuesBehind(d.m, more);
    var m' := AllEnqueued(d.m, more);
    assert m'.ring[0] == d.m.ring[0] && d.m.ring[1..] <= m'.ring[1..];
  }

  /** What a whole tick does: the command in flight stays in flight, its time not up; or one command completes; and
      the next one starts, if there is one and none is in flight. */
  predicate Leads(d: Driver, d': Driver, now: nat) {
    && (d'.m.waiting <==> d'.m.ring != [])
    && (if d.m.waiting && d'.m.done == d.m.done
        then d'.m.waiting && d.m.ring <= d'.m.ring && SameFlight(d, d', now) && !NotBefore(Low(now), Low(d'.deadline))
        else
          && (if d.m.waiting
              then d.m.ring != [] && d'.m.done == d.m.done + [d.m.ring[0].text] && d.m.ring[1..] <= d'.m.ring
              else d'.m.done == d.m.done && d.m.ring <= d'.m.ring)
          && (d'.m.waiting ==> d'.m.ring != [] && d'.deadline == now + d'.m.ring[0].timeout_ms))
  }

  // ----- the ring in the object

  /** The ring's contents, head first. */
  function RingOf(queue: seq<Cmd>, head: nat, count: nat): (r: seq<Cmd>)
    requires |queue| == QUEUE_SIZE
    ensures |r| == count
  {
    seq(count, i requires 0 <= i < count => queue[(head + i) % QUEUE_SIZE])
  }

  lemma SlotsDiffer(head: nat, i: nat, n: nat)
    requires head < QUEUE_SIZE && i < n < QUEUE_SIZE
    ensures (head + i) % QUEUE_SIZE != (head + n) % QUEUE_SIZE
  {
  }

  lemma RingPush(queue: seq<Cmd>, head: nat, count: nat, c: Cmd)
    requires |queue| == QUEUE_SIZE && head < QUEUE_SIZE && count < QUEUE_SIZE
    ensures RingOf(queue[(head + count) % QUEUE_SIZE := c], head, count + 1) == RingOf(queue, head, count) + [c]
    ensures ((head + count) % QUEUE_SIZE + 1) % QUEUE_SIZE == (head + (count + 1)) % QUEUE_SIZE
  {
    var queue' := queue[(head + count) % QUEUE_SIZE := c];
    forall i | 0 <= i < count
      ensures RingOf(queue', head, count + 1)[i] == RingOf(queue, head, count)[i]
    {
      SlotsDiffer(head, i, count);
    }
    WrapAdd(head + count, 1);
  }

  lemma WrapAdd(x: nat, d: nat)
    ensures (x % QUEUE_SIZE + d) % QUEUE_SIZE == (x + d) % QUEUE_SIZE
  {
  }

  lemma RingPop(queue: seq<Cmd>, head: nat, count: nat)
    requires |queue| == QUEUE_SIZE && head < QUEUE_SIZE && 0 < count <= QUEUE_SIZE
    ensures RingOf(queue, (head + 1) % QUEUE_SIZE, count - 1) == RingOf(queue, head, count)[1..]
    ensures ((head + 1) % QUEUE_SIZE + (count - 1)) % QUEUE_SIZE == (head + count) % QUEUE_SIZE
  {
    forall i | 0 <= i < count - 1
      ensures ((head + 1) % QUEUE_SIZE + i) % QUEUE_SIZE == (head + (i + 1)) % QUEUE_SIZE
      ensures RingOf(queue, (head + 1) % QUEUE_SIZE, count - 1)[i] == RingOf(queue, head, count)[1..][i]
    {
      WrapAdd(head + 1, i);
    }
    WrapAdd(head + 1, count - 1);
  }

  class Sim800l {
    const queue: array<Cmd>
    var ser: bool
    var q_head: nat
    var q_tail: nat
    var q_count: nat
    var waiting: bool
    var deadline: nat          // real time; compared by its low 32 bits
    var current: Cmd
    var line_buf: string
    var payload_pending: bool
    var payload_timeout_ms: uint32
    ghost var accepted: seq<string>
    ghost var sent: seq<string>
    ghost var done: seq<string>

    constructor ()
      ensures Valid() && Abs() == IDLE && !ser && fresh(queue)
    {
      queue := new Cmd[QUEUE_SIZE](_ => Cmd("", "", 0));
      ser, q_head, q_tail, q_count, waiting, deadline := false, 0, 0, 0, false, 0;
      current, line_buf, payload_pending, payload_timeout_ms := Cmd("", "", 0), "", false, 0;
      accepted, sent, done := [], [], [];
    }

    ghost function Ring(): (r: seq<Cmd>)
      requires queue.Length == QUEUE_SIZE
      reads this, queue
      ensures |r| == q_count
    {
      RingOf(queue[..], q_head, q_count)
    }

    ghost function Abs(): Modem
      requires queue.Length == QUEUE_SIZE
      reads this, queue
    {
      Modem(Ring(), waiting, accepted, sent, done)
    }

    ghost predicate Valid()
      reads this, queue
    {
      && queue.Length == QUEUE_SIZE
      && q_head < QUEUE_SIZE && q_count <= QUEUE_SIZE && q_tail == (q_head + q_count) % QUEUE_SIZE
      && Lawful(Abs())
      && (waiting ==> current.text == queue[q_head].text && current.timeout_ms == queue[q_head].timeout_ms)
      && payload_timeout_ms <= PAYLOAD_TIMEOUT_MS
    }

    ghost function Timed(): Driver
      requires queue.Length == QUEUE_SIZE
      reads this, queue
    {
      Driver(Abs(), deadline, waiting && current.expected == ">")
    }

    /** `sendSms`: the payload is kept for the prompt, whether or not the command finds room. */
    method SendSms(number: string) returns (ok: bool)
      requires Valid()
      modifies this`q_tail, this`q_count, this`accepted, this`payload_pending, this`payload_timeout_ms, queue
      ensures Valid() && ok == (number != "" && old(q_count) < QUEUE_SIZE)
      ensures number == "" ==> Abs() == old(Abs())
      ensures number != "" ==>
        Abs() == Enqueued(old(Abs()), Cmd("AT+CMGS=\"" + number + "\"", ">", 3000))
        && payload_pending && payload_timeout_ms == 15000
    {
      if number == "" { return false; }
      payload_pending := true;
      payload_timeout_ms := PAYLOAD_TIMEOUT_MS;
      ok := EnqueueCommand(Cmd("AT+CMGS=\"" + number + "\"", ">", PROMPT_TIMEOUT_MS));
    }

    /** `enqueueCommand`. */
    method EnqueueCommand(c: Cmd) returns (ok: bool)
      requires Valid()
      modifies this`q_tail, this`q_count, this`accepted, queue
      ensures Valid() && ok == (old(q_count) < 16)
      ensures Abs() == Enqueued(old(Abs()), c) && q_head == old(q_head)
    {
      if q_count >= QUEUE_SIZE { return false; }
      EnqueuedLawful(Abs(), c);
      RingPush(queue[..], q_head, q_count, c);
      ghost var before := queue[..];
      queue[q_tail] := c;
      assert queue[..] == before[q_tail := c];
      q_tail := (q_tail + 1) % QUEUE_SIZE;
      q_count := q_count + 1;
      accepted := accepted + [c.text];
      return true;
    }

    method EnqueueAll(more: seq<Cmd>)
      requires Valid()
      modifies this`q_tail, this`q_count, this`accepted, queue
      ensures Valid() && Abs() == AllEnqueued(old(Abs()), more) && q_head == old(q_head)
    {
      var i := 0;
      while i < |more|
        invariant i <= |more| && Valid() && q_head == old(q_head)
        invariant AllEnqueued(old(Abs()), more) == AllEnqueued(Abs(), more[i..])
      {
        assert more[i..][1..] == more[i + 1..];
        var _ := EnqueueCommand(more[i]);
        i := i + 1;
      }
    }

    /** `startNext_`. */
    method StartNext(now: nat)
      requires Valid() && !waiting
      modifies this
      ensures Valid() && Abs() == if ser then NextStarted(old(Abs())) else old(Abs())
      ensures waiting ==> current == queue[q_head] && deadline == now + current.timeout_ms
      ensures ser == old(ser) && line_buf == old(line_buf) && q_count == old(q_count)
    {
      if q_count == 0 || !ser { return; }
      current := queue[q_head];
      waiting := true;
      deadline := now + current.timeout_ms;
      sent := sent + [current.text];
      assert Ring()[0] == queue[q_head];
    }

    /** `finishCommand_`; `more` is what the completion callbacks enqueue. */
    method FinishCommand(more: seq<Cmd>, ghost now: nat)
      requires Valid() && waiting
      modifies this, queue
      ensures Valid() && Abs() == Finished(old(Abs()), more) && !payload_pending && !waiting
      ensures Carries(old(Timed()), Timed(), now)
      ensures ser == old(ser) && line_buf == old(line_buf)
    {
      ghost var m, d := Abs(), Timed();
      FinishedLawful(m, more);
      AllEnqueuedLawful(m, more);
      EnqueueAll(more);
      ghost var m' := Abs();
      assert current.text == m.ring[0].text;
      done := done + [current.text];
      DropHead();
      assert Abs() == HeadDropped(m'.(done := m'.done + [m.ring[0].text])) == Finished(m, more);
      FinishCarries(d, Timed(), more, now);
    }

    /** The end of `finishCommand_`. */
    method DropHead()
      requires queue.Length == QUEUE_SIZE && q_head < QUEUE_SIZE && q_count <= QUEUE_SIZE
      requires q_tail == (q_head + q_count) % QUEUE_SIZE
      modifies this
      ensures Abs() == HeadDropped(old(Abs())) && !payload_pending && payload_timeout_ms == 0 && ser == old(ser) &&
        line_buf == old(line_buf)
      ensures q_head < QUEUE_SIZE && q_tail == (q_head + q_count) % QUEUE_SIZE
    {
      waiting := false;
      current := Cmd("", "", 0);
      payload_pending := false;
      payload_timeout_ms := 0;
      ghost var ring := Ring();
      if q_count > 0 {
        RingPop(queue[..], q_head, q_count);
        assert ring != [] && ring[1..] == RingOf(queue[..], (q_head + 1) % QUEUE_SIZE, q_count - 1);
        q_head := (q_head + 1) % QUEUE_SIZE;
        q_count := q_count - 1;
      }
    }

    /** `handleLine_`; `more` is what any callback it runs enqueues. */
    method HandleLine(line: string, more: seq<Cmd>, now: nat)
      requires Valid()
      modifies this, queue
      ensures Valid() && ser == old(ser) && line_buf == old(line_buf)
      ensures Abs() == Answered(old(Abs()), old(current).expected, old(payload_pending), line, more)
      ensures match EffectOf(old(waiting), old(current).expected, old(payload_pending), line)
        case Finish(_) => !waiting && !payload_pending
        case SendPayload => current == old(current).(expected := "OK") && !payload_pending &&
          deadline == now + payload_timeout_ms
        case _ => current == old(current) && payload_pending == old(payload_pending) && deadline == old(deadline)
      ensures Carries(old(Timed()), Timed(), now)
    {
      if IsUrc(line) {
        EnqueuesBehind(Abs(), more);
        EnqueueAll(more);
        return;
      }
      if !waiting { return; }
      if current.expected == ">" && line == ">" {
        if payload_pending {
          payload_pending := false;
          current := current.(expected := "OK");
          deadline := now + payload_timeout_ms;
          return;
        }
        FinishCommand(more, now);
        return;
      }
      if IsErrorLine(line) {
        FinishCommand(more, now);
        return;
      }
      if |current.expected| > 0 && Contains(line, current.expected) {
        FinishCommand(more, now);
        return;
      }
    }

    /** `consumeChar_`. */
    method ConsumeChar(c: char, more: seq<Cmd>, now: nat)
      requires Valid()
      modifies this, queue
      ensures Valid() && ser == old(ser)
      ensures var (line, rest) := Fed(old(waiting && current.expected == ">"), old(line_buf), c);
        line_buf == rest &&
        Abs() == if line.None? then old(Abs())
                 else Answered(old(Abs()), old(current).expected, old(payload_pending), line.value, more)
      ensures Carries(old(Timed()), Timed(), now)
    {
      if waiting && current.expected == ">" && c == '>' {
        HandleLine(">", more, now);
        return;
      }
      if c == '\n' {
        var line := Trim(line_buf);
        line_buf := "";
        if line != "" { HandleLine(line, more, now); }
        return;
      }
      if c == '\r' { return; }
      line_buf := if |line_buf| < MAX_LINE_LEN then line_buf + [c] else "";
    }

    /** The reading loop of `tick`: the characters received, each with what the callbacks it triggers enqueue. */
    method ConsumeAll(input: seq<(char, seq<Cmd>)>, now: nat) returns (ghost events: seq<Event>)
      requires Valid()
      modifies this, queue
      ensures Valid() && ser == old(ser) && Reaches(old(Abs()), events, Abs())
      ensures Carries(old(Timed()), Timed(), now)
      ensures input == [] ==>
        waiting == old(waiting) && deadline == old(deadline) && current == old(current) && Abs() == old(Abs())
    {
      events := [];
      var i := 0;
      while i < |input|
        invariant i <= |input| && Valid() && ser == old(ser)
        invariant Reaches(old(Abs()), events, Abs())
        invariant Carries(old(Timed()), Timed(), now)
        invariant i == 0 ==>
          waiting == old(waiting) && deadline == old(deadline) && current == old(current) && Abs() == old(Abs())
      {
        ghost var m := Abs();
        ghost var (line, _) := Fed(waiting && current.expected == ">", line_buf, input[i].0);
        if line.Some? {
          ghost var more := AnswersAreEvents(m, current.expected, payload_pending, line.value, input[i].1);
          ReachesJoin(old(Abs()), events, m, more,
            Answered(m, current.expected, payload_pending, line.value, input[i].1));
          events := events + more;
        }
        ghost var d := Timed();
        ConsumeChar(input[i].0, input[i].1, now);
        CarriesOn(old(Timed()), d, Timed(), now);
        i := i + 1;
      }
    }

    /** `tick`: the characters received, then the time-out, then the next command. All it does is a run of the queue's
        events. A command in flight after it has time left or was started by it, and a queue that has commands
        has one in flight. */
    method Tick(input: seq<(char, seq<Cmd>)>, more: seq<Cmd>, now: nat) returns (ghost events: seq<Event>)
      requires Valid()
      modifies this, queue
      ensures Valid() && ser == old(ser) && Reaches(old(Abs()), events, Abs())
      ensures ser ==> Leads(old(Timed()), Timed(), now)
      ensures ser ==> (waiting <==> q_count > 0)
      ensures ser && waiting ==> !NotBefore(Low(now), Low(deadline)) || deadline == now + current.timeout_ms
      ensures input == [] && old(waiting) && !NotBefore(Low(now), Low(old(deadline))) ==> Abs() == old(Abs())
      ensures !ser ==> Abs() == old(Abs())
    {
      events := [];
      if !ser { return; }
      events := ConsumeAll(input, now);
      ghost var d1, m1 := Timed(), Abs();
      ghost var timed_out := TimeOut(more, now);
      ReachesJoin(old(Abs()), events, m1, timed_out, Abs());
      CarriesOn(old(Timed()), d1, Timed(), now);
      events := events + timed_out;
      ghost var m2 := Abs();
      ghost var started := StartIdle(now);
      ReachesJoin(old(Abs()), events, m2, started, Abs());
      events := events + started;
    }

    /** The time-out of `tick`. */
    method TimeOut(more: seq<Cmd>, now: nat) returns (ghost events: seq<Event>)
      requires Valid()
      modifies this, queue
      ensures Valid() && ser == old(ser) && Reaches(old(Abs()), events, Abs()) && Carries(old(Timed()), Timed(), now)
      ensures waiting ==> !NotBefore(Low(now), Low(deadline))
      ensures waiting || !old(waiting) || !NotBefore(Low(now), Low(old(deadline))) ==>
        Abs() == old(Abs()) && Timed() == old(Timed()) && current == old(current)
    {
      events := [];
      if waiting && NotBefore(Low(now), Low(deadline)) {
        ReachesInOne(Abs(), Complete(more));
        events := [Complete(more)];
        FinishCommand(more, now);
      }
    }

    /** The start of the next command in `tick`. */
    method StartIdle(now: nat) returns (ghost events: seq<Event>)
      requires Valid() && ser
      modifies this
      ensures Valid() && ser == old(ser) && Reaches(old(Abs()), events, Abs())
      ensures waiting <==> q_count > 0
      ensures Ring() == old(Ring()) && done == old(done)
      ensures old(waiting) ==> Abs() == old(Abs()) && Timed() == old(Timed()) && current == old(current)
      ensures !old(waiting) && waiting ==> deadline == now + Ring()[0].timeout_ms == now + current.timeout_ms
    {
      events := [];
      if !waiting && q_count > 0 {
        ReachesInOne(Abs(), Start);
        events := [Start];
        StartNext(now);
      }
    }
  }

  predicate IsSpace(c: char) { c == ' ' || c == '\t' || c == '\n' || c == '\r' }

  /** `String::trim`. */
  function Trim(s: string): (t: string)
    ensures |t| <= |s|
    decreases |s|
  {
    if s == "" then s
    else if IsSpace(s[0]) then Trim(s[1..])
    else if IsSpace(s[|s| - 1]) then Trim(s[..|s| - 1])
    else s
  }
}
