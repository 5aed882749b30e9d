/**
  Requests and their responses on the signalling channel (mssdk/mssignal/mssignal.cpp): a request
  waits to be sent, then for its response. Sending together with recording, and receiving, are
  taken as single steps, in any interleaving.
 */
module SignalState {
  import opened Prelude

  /** A message with its number in the order of submission; `wanted` says that a promise waits for its response. */
  datatype Message = Message(number: nat, id: int, text: string, wanted: bool)

  datatype State = State(
    sendList: map<int, Message>,
    ackList: map<int, Message>,
    responses: map<nat, string>,      // the promises that were set, by the number of the message
    submitted: seq<Message>,          // everything that was submitted
    answered: set<nat>,               // what was taken off the list of requests that wait for a response
    wire: seq<nat>)                   // what was sent, in order

  const INITIAL := State(map[], map[], map[], [], {}, [])

  datatype Step =
    | Submit(id: int, text: string, wanted: bool)
    | Transmit(id: int)               // the message that get_msg happens to pick
    | Receive(id: int, text: string)  // a message without an id has the id -1

  predicate Enabled(st: State, step: Step) { step.Transmit? ==> step.id in st.sendList }

  /** Submitting under an id replaces a message that waits to be sent under the same id. */
  function Submitted(st: State, id: int, text: string, wanted: bool): State {
    var m := Message(|st.submitted|, id, text, wanted);
    st.(sendList := st.sendList[id := m], submitted := st.submitted + [m])
  }

  /** Only ids other than 0 are recorded, and a record replaces an older one under the same id. */
  function Transmitted(st: State, id: int): State
    requires id in st.sendList
  {
    var m := st.sendList[id];
    st.(sendList := st.sendList - {id}, ackList := if id != 0 then st.ackList[id := m] else st.ackList, wire := st.wire + [m.number])
  }

  function Received(st: State, id: int, text: string): State {
    if id !in st.ackList then st
    else
      var m := st.ackList[id];
      st.(ackList := st.ackList - {id}, answered := st.answered + {m.number},
          responses := if m.wanted then st.responses[m.number := text] else st.responses)
  }

  function Next(st: State, step: Step): State
    requires Enabled(st, step)
  {
    match step
    case Submit(id, text, wanted) => Submitted(st, id, text, wanted)
    case Transmit(id) => Transmitted(st, id)
    case Receive(id, text) => Received(st, id, text)
  }

  // ---- Conservation ----

  predicate Listed(list: map<int, Message>, submitted: seq<Message>) {
    forall id <- list.Keys :: list[id].id == id && list[id].number < |submitted| && submitted[list[id].number] == list[id]
  }

  predicate Queued(st: State, n: nat)
    requires n < |st.submitted|
  {
    var id := st.submitted[n].id; id in st.sendList && st.sendList[id].number == n
  }

  predicate Awaiting(st: State, n: nat)
    requires n < |st.submitted|
  {
    var id := st.submitted[n].id; id in st.ackList && st.ackList[id].number == n
  }

  predicate ExactlyOne(a: bool, b: bool, c: bool) { (a || b || c) && !(a && b) && !(a && c) && !(b && c) }

  /** What always holds: the lists and the promises refer to submitted messages. */
  predicate Inv(st: State) {
    Listed(st.sendList, st.submitted) && Listed(st.ackList, st.submitted)
    && (forall i :: 0 <= i < |st.submitted| ==> st.submitted[i].number == i)
    && (forall n <- st.answered :: n < |st.submitted| && !Queued(st, n) && !Awaiting(st, n))
    && (forall n <- st.responses.Keys :: n in st.answered && st.submitted[n].wanted)
    && (forall n <- st.answered :: st.submitted[n].wanted ==> n in st.responses)
    && (forall n :: 0 <= n < |st.submitted| && Queued(st, n) ==> n !in st.wire && !Awaiting(st, n))
    && (forall n <- st.wire :: n < |st.submitted|)
    && (forall n :: 0 <= n < |st.submitted| && Awaiting(st, n) ==> n in st.wire)
    && forall i, j :: 0 <= i < j < |st.wire| ==> st.wire[i] != st.wire[j]
  }

  /** Nothing is lost: each submitted message waits to be sent, or waits for its response, or was answered. */
  predicate Conserved(st: State) {
    forall n :: 0 <= n < |st.submitted| ==> ExactlyOne(Queued(st, n), Awaiting(st, n), n in st.answered)
  }

  /** The steps that lose a message: its place in a list is taken, or it is sent without a record. */
  predicate Loses(st: State, step: Step) {
    match step
    case Submit(id, _, _) => id in st.sendList
    case Transmit(id) => id == 0 || id in st.ackList
    case Receive(_, _) => false
  }

  lemma InitialInv()
    ensures Inv(INITIAL) && Conserved(INITIAL)
  {}

  lemma SubmitInv(st: State, id: int, text: string, wanted: bool)
    requires Inv(st)
    ensures Inv(Submitted(st, id, text, wanted))
    ensures Conserved(st) ==> (Conserved(Submitted(st, id, text, wanted)) <==> id !in st.sendList)
  {
    var st' := Submitted(st, id, text, wanted);
    var k := |st.submitted|;
    assert forall n :: 0 <= n < k ==> st'.submitted[n] == st.submitted[n];
    assert Queued(st', k);
    forall n | 0 <= n < k ensures Awaiting(st', n) == Awaiting(st, n) && Queued(st', n) == (Queued(st, n)
      && st.submitted[n].id != id) {}
    if id in st.sendList {
      var n := st.sendList[id].number;
      assert Queued(st, n) && !Queued(st', n);
      if Conserved(st) { assert !Awaiting(st', n) && n !in st'.answered; }
    }
  }

  /** Where the messages are after one was sent. */
  lemma TransmitMoves(st: State, id: int)
    requires Inv(st) && id in st.sendList
    ensures var st', k := Transmitted(st, id), st.sendList[id].number;
            k < |st.submitted| && Queued(st, k) && !Queued(st', k) && Awaiting(st', k) == (id != 0)
            && forall n :: 0 <= n < |st.submitted| && n != k ==>
                 Queued(st', n) == Queued(st, n) && Awaiting(st', n) == (Awaiting(st, n) && (id == 0 || st.submitted[n].id != id))
  {
    assert Queued(st, st.sendList[id].number) && !Awaiting(st, st.sendList[id].number);
  }

  lemma TransmitKeeps(st: State, id: int)
    requires Inv(st) && id in st.sendList
    ensures Inv(Transmitted(st, id))
  {
    TransmitMoves(st, id);
    hide Queued, Awaiting;
  }

  lemma TransmitInv(st: State, id: int)
    requires Inv(st) && id in st.sendList
    ensures Inv(Transmitted(st, id))
    ensures Conserved(st) ==> (Conserved(Transmitted(st, id)) <==> id != 0 && id !in st.ackList)
  {
    var st' := Transmitted(st, id);
    var k := st.sendList[id].number;
    TransmitMoves(st, id);
    TransmitKeeps(st, id);
    if id in st.ackList && id != 0 {
      var n := st.ackList[id].number;
      assert Awaiting(st, n) && n != k && !Awaiting(st', n);
      if Conserved(st) { assert !Queued(st', n) && n !in st'.answered; }
    }
    if id == 0 && Conserved(st) { assert k !in st'.answered; }
  }

  lemma ReceiveInv(st: State, id: int, text: string)
    requires Inv(st)
    ensures Inv(Received(st, id, text))
    ensures Conserved(st) ==> Conserved(Received(st, id, text))
  {
    var st' := Received(st, id, text);
    if id in st.ackList {
      var k := st.ackList[id].number;
      assert Awaiting(st, k) && !Awaiting(st', k) && k !in st.answered;
      forall n | 0 <= n < |st.submitted| && n != k ensures Queued(st', n) == Queued(st, n) && Awaiting(st', n) == Awaiting(st, n) {}
    }
  }

  /** Every step keeps the invariant, and conserves the messages exactly when it is not one of those that lose one. */
  lemma StepConserves(st: State, step: Step)
    requires Inv(st) && Enabled(st, step)
    ensures Inv(Next(st, step))
    ensures Conserved(st) ==> (Conserved(Next(st, step)) <==> !Loses(st, step))
  {
    hide Inv, Conserved, Submitted, Transmitted, Received;
    match step
    case Submit(id, text, wanted) => SubmitInv(st, id, text, wanted);
    case Transmit(id) => TransmitInv(st, id);
    case Receive(id, text) => ReceiveInv(st, id, text);
  }

  // ---- Promises ----

  /**
    A promise is set at most once: a step keeps every response there is, and adds at most one, to a
    message that waits for it, from a message of the same id.
   */
  lemma ResponsesAreFinal(st: State, step: Step)
    requires Inv(st) && Enabled(st, step)
    ensures forall n <- st.responses.Keys :: n in Next(st, step).responses && Next(st, step).responses[n] == st.responses[n]
    ensures forall n <- Next(st, step).responses.Keys :: n !in st.responses ==>
              n < |st.submitted| && st.submitted[n].wanted && Awaiting(st, n)
              && step == Receive(st.submitted[n].id, Next(st, step).responses[n])
  {}

  // ---- Runs ----

  /** The state after some steps; none when a step is not possible. */
  function After(steps: seq<Step>): (r: Option<State>)
    ensures r.Some? ==> Inv(r.value)
  {
    if steps == [] then
      InitialInv();
      Some(INITIAL)
    else
      match After(steps[..|steps| - 1])
      case None => None
      case Some(st) =>
        var step := steps[|steps| - 1];
        if Enabled(st, step) then
          StepConserves(st, step);
          Some(Next(st, step))
        else None
  }

  /** The ids of the submitted messages are different from each other and from 0. */
  predicate DistinctIds(steps: seq<Step>) {
    (forall i :: 0 <= i < |steps| && steps[i].Submit? ==> steps[i].id != 0)
    && forall i, j :: 0 <= i < j < |steps| && steps[i].Submit? && steps[j].Submit? ==> steps[i].id != steps[j].id
  }

  lemma Snoc(steps: seq<Step>, step: Step)
    ensures (steps + [step])[..|steps|] == steps
    ensures After(steps).Some? && Enabled(After(steps).value, step) ==> After(steps + [step]) == Some(Next(After(steps).value, step))
  {
    hide Inv, Enabled, Next;
    assert (steps + [step])[..|steps|] == steps;
  }

  /** Two messages submitted under one id: the first is lost before it is sent. */
  lemma ReusedIdLoses(a: string, b: string)
    ensures var run := After([Submit(1, a, true)] + [Submit(1, b, true)]); run.Some? && !Conserved(run.value)
  {
    hide Inv, Conserved;
    Snoc([], Submit(1, a, true));
    Snoc([Submit(1, a, true)], Submit(1, b, true));
    assert [] + [Submit(1, a, true)] == [Submit(1, a, true)];
    StepConserves(INITIAL, Submit(1, a, true));
    StepConserves(After([Submit(1, a, true)]).value, Submit(1, b, true));
    InitialInv();
  }

  /** A message with the id 0 is sent, and no response can reach it. */
  lemma ZeroIdLoses(a: string)
    ensures var run := After([Submit(0, a, true)] + [Transmit(0)]); run.Some? && !Conserved(run.value)
  {
    hide Inv, Conserved;
    Snoc([], Submit(0, a, true));
    Snoc([Submit(0, a, true)], Transmit(0));
    assert [] + [Submit(0, a, true)] == [Submit(0, a, true)];
    StepConserves(INITIAL, Submit(0, a, true));
    StepConserves(After([Submit(0, a, true)]).value, Transmit(0));
    InitialInv();
  }

  predicate SubmittedBy(steps: seq<Step>, m: Message) { exists i :: 0 <= i < |steps| && steps[i].Submit? && steps[i].id == m.id }

  lemma {:induction false} MessagesComeFromSteps(steps: seq<Step>)
    requires After(steps).Some?
    ensures forall m <- After(steps).value.submitted :: SubmittedBy(steps, m)
  {
    hide Inv;
    if steps != [] {
      var front, step := steps[..|steps| - 1], steps[|steps| - 1];
      MessagesComeFromSteps(front);
      forall m | m in After(steps).value.submitted ensures SubmittedBy(steps, m) {
        if m in After(front).value.submitted {
          var i :| 0 <= i < |front| && front[i].Submit? && front[i].id == m.id;
          assert steps[i] == front[i];
        } else {
          assert step.Submit? && steps[|steps| - 1].id == m.id;
        }
      }
    }
  }

  predicate OneMessagePerId(st: State) {
    (forall i :: 0 <= i < |st.submitted| ==> st.submitted[i].id != 0)
    && forall i, j :: 0 <= i < j < |st.submitted| ==> st.submitted[i].id != st.submitted[j].id
  }

  lemma NothingLost(st: State, step: Step)
    requires Inv(st) && OneMessagePerId(st) && Enabled(st, step) && (step.Submit? ==> forall m <- st.submitted :: m.id != step.id)
    ensures !Loses(st, step)
  {
    hide Inv;
    ListsAreSubmitted(st);
    if step.Transmit? { NotInBoth(st, step.id); }
  }

  lemma ListsAreSubmitted(st: State)
    requires Inv(st)
    ensures forall id <- st.sendList.Keys :: st.sendList[id] in st.submitted && st.sendList[id].id == id
  {
    assert forall id <- st.sendList.Keys :: st.submitted[st.sendList[id].number] == st.sendList[id];
  }

  lemma NotInBoth(st: State, id: int)
    requires Inv(st) && OneMessagePerId(st)
    ensures id in st.sendList ==> id !in st.ackList && id != 0
  {
    assert forall id <- st.sendList.Keys :: Queued(st, st.sendList[id].number);
    assert forall id <- st.ackList.Keys :: Awaiting(st, st.ackList[id].number);
  }

  /**
    Over any interleaving with distinct ids other than 0, every submitted request is in exactly one
    place: waiting to be sent, waiting for its response, or answered.
   */
  lemma {:induction false} RequestsAreConserved(steps: seq<Step>)
    requires After(steps).Some? && DistinctIds(steps)
    ensures Conserved(After(steps).value) && OneMessagePerId(After(steps).value)
  {
    hide Inv, Conserved, Loses;
    if steps == [] {
      InitialInv();
    } else {
      var front, step := steps[..|steps| - 1], steps[|steps| - 1];
      RequestsAreConserved(front);
      var st := After(front).value;
      MessagesComeFromSteps(front);
      forall m | m in st.submitted && step.Submit? ensures m.id != step.id {
        var i :| 0 <= i < |front| && front[i].Submit? && front[i].id == m.id;
        assert steps[i] == front[i];
      }
      NothingLost(st, step);
      StepConserves(st, step);
    }
  }

  // ---- What a step does ----

  /** Submitting keeps the text and the wish for a response under the id, and touches nothing else. */
  lemma SubmitMeans(st: State, id: int, text: string, wanted: bool)
    ensures var st', m := Next(st, Submit(id, text, wanted)), Message(|st.submitted|, id, text, wanted);
            st'.submitted == st.submitted + [m] && id in st'.sendList && st'.sendList[id] == m
            && (forall k :: k != id ==> (k in st'.sendList <==> k in st.sendList) && (k in st.sendList ==> st'.sendList[k] == st.sendList[k]))
            && st'.ackList == st.ackList && st'.responses == st.responses && st'.answered == st.answered && st'.wire == st.wire
  {}

  /** Sending puts the message that waited under the id on the wire, and lets it wait for its response unless the id is 0. */
  lemma TransmitMeans(st: State, id: int)
    requires id in st.sendList
    ensures var st', m := Next(st, Transmit(id)), st.sendList[id];
            st'.wire == st.wire + [m.number] && id !in st'.sendList && (id != 0 ==> id in st'.ackList && st'.ackList[id] == m)
            && (forall k :: k != id ==> (k in st'.sendList <==> k in st.sendList) && (k in st.sendList ==> st'.sendList[k] == st.sendList[k]))
            && (forall k :: k != id || k == 0 ==> (k in st'.ackList <==> k in st.ackList) && (k in st.ackList ==> st'.ackList[k] == st.ackList[k]))
            && st'.submitted == st.submitted && st'.responses == st.responses && st'.answered == st.answered
  {}

  /**
    A response under an id that waits answers the message there, sets its promise to the text if it
    has one, and ends the wait; no other entry and no other promise changes. Under an id that does
    not wait it changes nothing.
   */
  lemma ReceiveMeans(st: State, id: int, text: string)
    ensures id !in st.ackList ==> Next(st, Receive(id, text)) == st
    ensures id in st.ackList ==>
              var st', m := Next(st, Receive(id, text)), st.ackList[id];
              m.number in st'.answered && id !in st'.ackList && (m.wanted ==> m.number in st'.responses && st'.responses[m.number] == text)
              && (forall n :: n != m.number || !m.wanted ==>
                    (n in st'.responses <==> n in st.responses) && (n in st.responses ==> st'.responses[n] == st.responses[n]))
              && (forall n :: n != m.number ==> (n in st'.answered <==> n in st.answered))
              && (forall k :: k != id ==> (k in st'.ackList <==> k in st.ackList) && (k in st.ackList ==> st'.ackList[k] == st.ackList[k]))
              && st'.sendList == st.sendList && st'.submitted == st.submitted && st'.wire == st.wire
  {}

  // ---- Which response a request gets ----

  predicate Sent(steps: seq<Step>, id: int) { exists i :: 0 <= i < |steps| && steps[i] == Transmit(id) }

  /** The text of the first message under the id that arrived after one was sent under it. */
  function FirstResponse(steps: seq<Step>, id: int): Option<string> {
    if steps == [] then None
    else
      var front, step := steps[..|steps| - 1], steps[|steps| - 1];
      if FirstResponse(front, id).Some? then FirstResponse(front, id)
      else if step.Receive? && step.id == id && Sent(front, id) then Some(step.text)
      else None
  }

  lemma SentLater(steps: seq<Step>, id: int)
    requires steps != []
    ensures Sent(steps, id) <==> Sent(steps[..|steps| - 1], id) || steps[|steps| - 1] == Transmit(id)
  {
    var front := steps[..|steps| - 1];
    if Sent(front, id) {
      var i :| 0 <= i < |front| && front[i] == Transmit(id);
      assert steps[i] == Transmit(id);
    }
  }

  /** The first response is that of a step before which the id was sent, and between which and the sending nothing arrived under it. */
  lemma {:induction false} FirstResponseMeans(steps: seq<Step>, id: int, text: string)
    ensures FirstResponse(steps, id) == Some(text) <==>
              exists c :: 0 <= c < |steps| && steps[c] == Receive(id, text) && Sent(steps[..c], id)
                          && forall k :: 0 <= k < c && steps[k].Receive? && steps[k].id == id ==> !Sent(steps[..k], id)
    ensures FirstResponse(steps, id).None? <==>
              forall k :: 0 <= k < |steps| && steps[k].Receive? && steps[k].id == id ==> !Sent(steps[..k], id)
  {
    hide Sent;
    if steps != [] {
      var n := |steps| - 1;
      var front := steps[..n];
      FirstResponseMeans(front, id, text);
      assert forall k :: 0 <= k < n ==> front[k] == steps[k] && front[..k] == steps[..k];
    }
  }

  /** Where a message is, told by the steps alone. */
  predicate Placed(steps: seq<Step>, st: State, n: nat)
    requires n < |st.submitted|
  {
    var m := st.submitted[n];
    (Queued(st, n) <==> !Sent(steps, m.id))
    && (Awaiting(st, n) <==> Sent(steps, m.id) && FirstResponse(steps, m.id).None?)
    && (n in st.answered <==> FirstResponse(steps, m.id).Some?)
    && (m.wanted ==> (n in st.responses <==> FirstResponse(steps, m.id).Some?))
    && (n in st.responses ==> FirstResponse(steps, m.id) == Some(st.responses[n]))
  }

  lemma {:induction false} NeverBeforeSubmitted(steps: seq<Step>, id: int)
    requires After(steps).Some? && forall m <- After(steps).value.submitted :: m.id != id
    ensures !Sent(steps, id) && FirstResponse(steps, id).None?
  {
    hide Inv;
    if steps != [] {
      var front, step := steps[..|steps| - 1], steps[|steps| - 1];
      assert forall m <- After(front).value.submitted :: m in After(steps).value.submitted;
      NeverBeforeSubmitted(front, id);
      SentLater(steps, id);
      ListsAreSubmitted(After(front).value);
    }
  }

  /** The number in a list is that of the only message with the id. */
  lemma ListedNumber(st: State, n: nat)
    requires Inv(st) && OneMessagePerId(st) && n < |st.submitted|
    ensures var id := st.submitted[n].id;
            (id in st.sendList ==> st.sendList[id].number == n) && (id in st.ackList ==> st.ackList[id].number == n)
    ensures Queued(st, n) ==> !Awaiting(st, n) && n !in st.answered
    ensures Awaiting(st, n) ==> n !in st.answered
  {}

  lemma PlacedAfterSubmit(front: seq<Step>, st: State, n: nat, id: int, text: string, wanted: bool)
    requires n < |st.submitted| && Placed(front, st, n) && st.submitted[n].id != id
    ensures Placed(front + [Submit(id, text, wanted)], Next(st, Submit(id, text, wanted)), n)
  {
    var steps := front + [Submit(id, text, wanted)];
    assert steps[..|steps| - 1] == front;
    SentLater(steps, st.submitted[n].id);
    hide Sent;
  }

  lemma PlacedAfterTransmit(front: seq<Step>, st: State, n: nat, id: int)
    requires Inv(st) && OneMessagePerId(st) && id in st.sendList && n < |st.submitted| && Placed(front, st, n)
    ensures Placed(front + [Transmit(id)], Next(st, Transmit(id)), n)
  {
    hide Inv, OneMessagePerId;
    var steps := front + [Transmit(id)];
    assert steps[..|steps| - 1] == front;
    SentLater(steps, st.submitted[n].id);
    ListedNumber(st, n);
    NotInBoth(st, id);
    hide Sent;
    if st.submitted[n].id != id {
      SentOther(st, n, id);
    }
  }

  /** Sending under another id leaves the message where it is. */
  lemma SentOther(st: State, n: nat, id: int)
    requires id in st.sendList && n < |st.submitted| && st.submitted[n].id != id
    ensures var st' := Next(st, Transmit(id));
            st'.submitted == st.submitted && st'.answered == st.answered && st'.responses == st.responses
            && Queued(st', n) == Queued(st, n) && Awaiting(st', n) == Awaiting(st, n)
  {}

  lemma PlacedAfterReceive(front: seq<Step>, st: State, n: nat, id: int, text: string)
    requires Inv(st) && OneMessagePerId(st) && n < |st.submitted| && Placed(front, st, n)
    ensures Placed(front + [Receive(id, text)], Next(st, Receive(id, text)), n)
  {
    var steps := front + [Receive(id, text)];
    assert steps[..|steps| - 1] == front;
    SentLater(steps, st.submitted[n].id);
    ListedNumber(st, n);
    if id in st.ackList && st.submitted[n].id != id { OtherNumber(st, n, id); }
    hide Sent, Inv;
  }

  lemma OldIds(st: State, step: Step)
    requires Enabled(st, step) && OneMessagePerId(Next(st, step))
    ensures step.Submit? ==> forall n :: 0 <= n < |st.submitted| ==> st.submitted[n].id != step.id
    ensures |st.submitted| <= |Next(st, step).submitted| <= |st.submitted| + if step.Submit? then 1 else 0
  {
    var st' := Next(st, step);
    assert forall n :: 0 <= n < |st.submitted| ==> st'.submitted[n] == st.submitted[n];
    if step.Submit? { assert st'.submitted[|st.submitted|].id == step.id; }
  }

  lemma OtherNumber(st: State, n: nat, id: int)
    requires Inv(st) && n < |st.submitted| && st.submitted[n].id != id && id in st.ackList
    ensures st.ackList[id].number != n
  {}

  lemma NewPlaced(front: seq<Step>, step: Step, st: State)
    requires After(front) == Some(st) && step.Submit? && OneMessagePerId(Next(st, step))
    ensures Placed(front + [step], Next(st, step), |st.submitted|)
  {
    hide After;
    var steps, st', n := front + [step], Next(st, step), |st.submitted|;
    assert steps[..|steps| - 1] == front && st'.submitted[n].id == step.id;
    assert forall i :: 0 <= i < n ==> st'.submitted[i] == st.submitted[i];
    NeverBeforeSubmitted(front, step.id);
    SentLater(steps, step.id);
    hide Sent;
  }

  /**
    Over any interleaving with distinct ids other than 0, the steps alone say where each request is,
    and a request that was sent and whose response arrived has exactly that response: the first
    message under its id after it was sent.
   */
  lemma {:induction false} ResponsesArrive(steps: seq<Step>)
    requires After(steps).Some? && DistinctIds(steps)
    ensures forall n :: 0 <= n < |After(steps).value.submitted| ==> Placed(steps, After(steps).value, n)
  {
    hide Placed, OneMessagePerId, Inv;
    if steps != [] {
      var front, step := steps[..|steps| - 1], steps[|steps| - 1];
      ResponsesArrive(front);
      RequestsAreConserved(front);
      RequestsAreConserved(steps);
      var st := After(front).value;
      assert steps == front + [step];
      OldIds(st, step);
      forall n | 0 <= n < |After(steps).value.submitted| ensures Placed(steps, After(steps).value, n) {
        if n == |st.submitted| {
          NewPlaced(front, step, st);
        } else {
          match step
          case Submit(id, text, wanted) => PlacedAfterSubmit(front, st, n, id, text, wanted);
          case Transmit(id) => PlacedAfterTransmit(front, st, n, id);
          case Receive(id, text) => PlacedAfterReceive(front, st, n, id, text);
        }
      }
    }
  }

  /** The k-th submission is the k-th message, with its id, text and wish for a response. */
  function Submissions(steps: seq<Step>): seq<Message> {
    if steps == [] then []
    else
      var front, step := Submissions(steps[..|steps| - 1]), steps[|steps| - 1];
      if step.Submit? then front + [Message(|front|, step.id, step.text, step.wanted)] else front
  }

  lemma {:induction false} SubmittedInOrder(steps: seq<Step>)
    requires After(steps).Some?
    ensures After(steps).value.submitted == Submissions(steps)
  {
    hide Inv;
    if steps != [] { SubmittedInOrder(steps[..|steps| - 1]); }
  }

  // ---- Draining ----

  /** A state after transmitting the messages with these ids, in this order. */
  function Drained(st: State, picks: seq<int>): Option<State> {
    if picks == [] then Some(st)
    else
      match Drained(st, picks[..|picks| - 1])
      case None => None
      case Some(mid) => if picks[|picks| - 1] in mid.sendList then Some(Transmitted(mid, picks[|picks| - 1])) else None
  }

  /** Whatever is picked, k transmissions take k messages off the list and put them on the wire, in the order of the picks. */
  lemma {:induction false} TransmissionsDrain(st: State, picks: seq<int>)
    requires Inv(st) && Drained(st, picks).Some?
    ensures var st' := Drained(st, picks).value;
            Inv(st') && |st'.sendList| + |picks| == |st.sendList| && |st'.wire| == |st.wire| + |picks|
            && st'.wire[..|st.wire|] == st.wire
            && (forall i :: 0 <= i < |picks| ==> picks[i] in st.sendList && picks[i] !in st'.sendList
                                                 && st'.wire[|st.wire| + i] == st.sendList[picks[i]].number)
            && (forall id <- st'.sendList.Keys :: id in st.sendList && st'.sendList[id] == st.sendList[id])
  {
    hide Inv;
    if picks != [] {
      var front, id := picks[..|picks| - 1], picks[|picks| - 1];
      TransmissionsDrain(st, front);
      var mid := Drained(st, front).value;
      TransmitInv(mid, id);
      SmallerByOne(mid.sendList, id);
      var st' := Transmitted(mid, id);
      assert forall i :: 0 <= i < |front| ==> picks[i] == front[i];
      assert forall i :: 0 <= i < |mid.wire| ==> st'.wire[i] == mid.wire[i];
    }
  }

  lemma SmallerByOne(m: map<int, Message>, id: int)
    requires id in m
    ensures |m - {id}| + 1 == |m|
  {
    assert m.Keys == (m - {id}).Keys + {id};
  }
}

module Signal {
  import opened Prelude
  import opened SignalState

  class MSSignal {
    var sendList: map<int, Message>
    var ackList: map<int, Message>
    var responses: map<nat, string>
    ghost var submitted: seq<Message>
    ghost var answered: set<nat>
    ghost var wire: seq<nat>
    var count: nat

    ghost function Abstract(): State
      reads this
    {
      State(sendList, ackList, responses, submitted, answered, wire)
    }

    ghost predicate Valid()
      reads this
    {
      Inv(Abstract()) && count == |submitted|
    }

    constructor ()
      ensures Valid() && Abstract() == INITIAL
    {
      sendList, ackList, responses, submitted, answered, wire, count := map[], map[], map[], [], {}, [], 0;
      new;
      InitialInv();
    }

    /** send: the id is that of the message, or -1. */
    method Send(id: int, text: string, wanted: bool)
      requires Valid()
      modifies this
      ensures Valid() && Abstract() == Submitted(old(Abstract()), id, text, wanted)
    {
      SubmitInv(Abstract(), id, text, wanted);
      var m := Message(count, id, text, wanted);
      sendList := sendList[id := m];
      submitted := submitted + [m];
      count := count + 1;
    }

    /** get_msg: takes some message off the list, if there is one. */
    method GetMsg() returns (m: Option<Message>)
      requires Valid()
      modifies this`sendList
      ensures m.None? ==> forall id :: id !in old(sendList)
      ensures m.Some? ==>
                m.value.id in old(sendList) && old(sendList)[m.value.id] == m.value
                && sendList == old(sendList) - {m.value.id}
      ensures m.None? ==> sendList == old(sendList)
    {
      if id :| id in sendList {
        m := Some(sendList[id]);
        sendList := sendList - {id};
      } else {
        m := None;
      }
    }

    /** One round of ThreadProc: sends some message, and records it unless its id is 0. */
    method Transmit() returns (sent: Option<Message>)
      requires Valid()
      modifies this
      ensures Valid() && (sent.None? ==> forall id :: id !in old(sendList))
      ensures sent.None? ==> Abstract() == old(Abstract())
      ensures sent.Some? ==> sent.value.id in old(sendList) && Abstract() == Transmitted(old(Abstract()), sent.value.id)
    {
      ghost var st := Abstract();
      sent := GetMsg();
      if sent.Some? {
        TransmitInv(st, sent.value.id);
        wire := wire + [sent.value.number];
        if sent.value.id != 0 {
          ackList := ackList[sent.value.id := sent.value];
        }
      }
    }

    /** Setting a promise twice would throw. */
    method SetValue(number: nat, text: string)
      requires number !in responses
      modifies this`responses
      ensures responses == old(responses)[number := text]
    {
      responses := responses[number := text];
    }

    /** on_text_message: the request that waits under the id, if any, gets the text as its response. */
    method OnTextMessage(id: int, text: string)
      requires Valid()
      modifies this
      ensures Valid() && Abstract() == Received(old(Abstract()), id, text)
    {
      ghost var st := Abstract();
      ReceiveInv(st, id, text);
      if id in ackList {
        var req := ackList[id];
        assert Awaiting(st, req.number);
        if req.wanted {
          SetValue(req.number, text);
        }
        ackList := ackList - {id};
        answered := answered + {req.number};
      }
    }
  }
}
