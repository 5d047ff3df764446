/** The PSC server: one thread that accepts, receives, sends and closes, for one client at a
    time. Everything it does to its environment, with what came of it, is an event in a trace.
    What is due after each event is part of the law of traces; the server is proved to leave
    only lawful traces with nothing left due, and what that means is proved of traces alone. */
module PscServer {
  import opened Words
  import opened TickCounter

  /** A connection is known by its number in order of acceptance; descriptors are reused. */
  datatype Event =
    | Started(limit: nat)                           // the heartbeat timeout, in ticks
    | Select(pending: bool, readable: Option<nat>)  // a connection waits; the client can be read
    | SelectFailed
    | Accept(fd: nat, id: nat)
    | AcceptFailed
    | Close(fd: nat, id: nat)
    | Receive(fd: nat, id: nat, ok: bool)
    | Send(fd: nat, id: nat, ok: bool)
    | Heard(id: nat, at: nat)                       // the heartbeat of a client starts again
    | Alive(id: nat, at: nat)                       // it is looked at, and is within the timeout
    | TimedOut(id: nat, at: nat)                    // or is not
    | Connected(id: nat)                            // the callback, with PSC_CONN
    | Disconnected(id: nat)                         // the callback, with PSC_DIS
    | Message(id: nat)                              // the callback, with a message
    | Poll                                          // the periodic work of a turn

  /** What has to come next; with `Nothing`, the application may send or the loop go on. */
  datatype Due =
    | Nothing
    | Admit
    | Drop(id: nat)
    | Tell(id: nat)
    | Stamp(id: nat)
    | Join(id: nat)
    | Hand(id: nat)

  /** What has happened so far: the timeout, connections accepted, descriptors open, the current
      client, the client the callback was last told of, one accepted and not yet the client, one
      that `select` found readable and is not read yet, when the client was last heard, the time
      last seen, whether the heartbeat was looked at and the work done in this turn, and what is due. */
  datatype Past = Past(limit: Option<nat>, accepted: nat, open: map<nat, nat>, current: Option<nat>,
                       announced: Option<nat>, heir: Option<nat>, unread: Option<nat>, heard: nat, time: nat,
                       checked: bool, polled: bool, due: Due)

  const NOTHING := Past(None, 0, map[], None, None, None, None, 0, 0, false, true, Nothing)

  predicate Holds(m: Past, fd: nat, id: nat) {
    fd in m.open && m.open[fd] == id
  }

  /** The client `id` is served, and nothing is due. */
  predicate Free(m: Past, id: nat) {
    m.due == Nothing && m.current == Some(id)
  }

  /** A turn is over: nothing is due or unread, the heartbeat was looked at, and the work done. */
  predicate Over(m: Past) {
    m.limit.Some? && m.due == Nothing && m.unread == None && (m.current == None || m.checked) && m.polled
  }

  /** The heartbeat of the client has been silent for the timeout; whole turns of the counter
      do not show. */
  predicate Late(m: Past, at: nat)
    requires m.limit.Some?
  {
    (at - m.heard) % TICKS >= m.limit.value
  }

  predicate Lawful(m: Past, e: Event) {
    match e
    case Started(limit) => m == NOTHING
    case Select(_, r) => Over(m) && (r == None || r == m.current)
    case SelectFailed => Over(m)
    case Accept(fd, id) => m.due == Admit && fd !in m.open && id == m.accepted
    case AcceptFailed => m.due == Admit
    case Close(fd, id) => m.due == Drop(id) && m.current == Some(id) && Holds(m, fd, id)
    case Receive(fd, id, _) => Free(m, id) && Holds(m, fd, id) && m.unread == Some(id)
    case Send(fd, id, _) => Free(m, id) && Holds(m, fd, id)
    case Heard(id, at) => m.due == Stamp(id) && at >= m.time
    case Alive(id, at) => Free(m, id) && m.unread == None && at >= m.time && m.limit.Some? && !Late(m, at)
    case TimedOut(id, at) => Free(m, id) && m.unread == None && at >= m.time && m.limit.Some? && Late(m, at)
    case Connected(id) => m.due == Join(id) && m.announced == None && m.current == None && id in m.open.Values
    case Disconnected(id) => m.due == Tell(id) && m.announced == Some(id) && m.current == None
    case Message(id) => m.due == Hand(id) && m.current == Some(id)
    case Poll => m.limit.Some? && m.due == Nothing && m.unread == None && (m.current == None || m.checked)
  }

  function Then(m: Past, e: Event): Past {
    match e
    case Started(limit) => m.(limit := Some(limit))
    case Select(pending, r) =>
      m.(unread := r, checked := false, polled := false, due := if pending then Admit else Nothing)
    case SelectFailed => m.(checked := false, polled := false)
    case Accept(fd, id) =>
      m.(accepted := m.accepted + 1, open := m.open[fd := id], heir := Some(id),
         due := if m.current.Some? then Drop(m.current.value) else Stamp(id))
    case AcceptFailed => m.(due := Nothing)
    case Close(fd, id) =>
      m.(open := m.open - {fd}, current := None, unread := if m.unread == Some(id) then None else m.unread,
         due := Tell(id))
    case Receive(_, id, ok) => m.(unread := None, due := if ok then Stamp(id) else Drop(id))
    case Send(_, id, ok) => m.(due := if ok then Nothing else Drop(id))
    case Heard(id, at) => m.(heard := at, time := at, due := if m.heir == Some(id) then Join(id) else Hand(id))
    case Alive(_, at) => m.(checked := true, time := at)
    case TimedOut(id, at) => m.(time := at, due := Drop(id))
    case Connected(id) => m.(current := Some(id), announced := Some(id), heir := None, due := Nothing)
    case Disconnected(id) => m.(announced := None, due := if m.heir.Some? then Stamp(m.heir.value) else Nothing)
    case Message(_) => m.(due := Nothing)
    case Poll => m.(polled := true)
  }

  function After(trace: seq<Event>): Past {
    if trace == [] then NOTHING else Then(After(trace[..|trace| - 1]), trace[|trace| - 1])
  }

  /** After `before`, the next event was `e`. */
  predicate Follows(before: seq<Event>, e: Event, after: seq<Event>) {
    |after| > |before| && after[|before|] == e
  }

  predicate LawfulAt(trace: seq<Event>, n: nat)
    requires n < |trace|
  {
    Lawful(After(trace[..n]), trace[n])
  }

  ghost predicate LawfulTrace(trace: seq<Event>) {
    forall n :: 0 <= n < |trace| ==> LawfulAt(trace, n)
  }

  ghost predicate Recorded(trace: seq<Event>, past: Past) {
    LawfulTrace(trace) && past == After(trace)
  }

  lemma LawfulNext(trace: seq<Event>, e: Event)
    requires LawfulTrace(trace) && Lawful(After(trace), e)
    ensures LawfulTrace(trace + [e]) && After(trace + [e]) == Then(After(trace), e)
  {
    var t := trace + [e];
    assert t[..|trace|] == trace;
    forall n | 0 <= n < |t| ensures LawfulAt(t, n) {
      if n < |trace| {
        assert LawfulAt(trace, n) && t[..n] == trace[..n];
      }
    }
  }

  // ----- what a lawful trace means -----

  lemma AfterNext(trace: seq<Event>, n: nat)
    requires n < |trace|
    ensures After(trace[..n + 1]) == Then(After(trace[..n]), trace[n])
  {
    assert trace[..n + 1][..n] == trace[..n];
  }

  predicate ClosedAt(trace: seq<Event>, i: nat, id: nat) {
    i < |trace| && trace[i].Close? && trace[i].id == id
  }

  /** Open connections have distinct numbers, all of them given out. */
  ghost predicate Numbered(m: Past) {
    && (forall fd :: fd in m.open ==> m.open[fd] < m.accepted)
    && (forall f, g :: f in m.open && g in m.open && m.open[f] == m.open[g] ==> f == g)
  }

  ghost predicate NotOpen(m: Past, id: nat) {
    id < m.accepted && forall fd :: fd in m.open ==> m.open[fd] != id
  }

  lemma NumberedNext(m: Past, e: Event, id: nat)
    requires Numbered(m) && Lawful(m, e)
    ensures Numbered(Then(m, e))
    ensures e.Close? ==> NotOpen(Then(m, e), e.id)
    ensures NotOpen(m, id) ==> NotOpen(Then(m, e), id)
  {
  }

  lemma {:induction false} AllNumbered(trace: seq<Event>, n: nat)
    requires LawfulTrace(trace) && n <= |trace|
    ensures Numbered(After(trace[..n]))
  {
    if n > 0 {
      AfterNext(trace, n - 1);
      AllNumbered(trace, n - 1);
      assert LawfulAt(trace, n - 1);
      NumberedNext(After(trace[..n - 1]), trace[n - 1], 0);
    }
  }

  /** A closed connection is never open again, though its descriptor may be. */
  lemma {:induction false} ClosedStays(trace: seq<Event>, i: nat, n: nat, id: nat)
    requires LawfulTrace(trace) && ClosedAt(trace, i, id) && i < n <= |trace|
    ensures NotOpen(After(trace[..n]), id)
    decreases n
  {
    var m, e := After(trace[..n - 1]), trace[n - 1];
    AfterNext(trace, n - 1);
    AllNumbered(trace, n - 1);
    assert LawfulAt(trace, n - 1);
    if i < n - 1 {
      ClosedStays(trace, i, n - 1, id);
    }
    NumberedNext(m, e, id);
  }

  /** No connection is closed twice. */
  lemma ClosedOnce(trace: seq<Event>, i: nat, j: nat, id: nat)
    requires LawfulTrace(trace) && ClosedAt(trace, i, id) && ClosedAt(trace, j, id)
    ensures i == j
  {
    assert LawfulAt(trace, i) && LawfulAt(trace, j);
    if i < j {
      ClosedStays(trace, i, j, id);
    } else if j < i {
      ClosedStays(trace, j, i, id);
    }
  }

  /** Nothing is sent to or read from a connection that has been closed. */
  lemma NoUseAfterClose(trace: seq<Event>, i: nat, j: nat, id: nat)
    requires LawfulTrace(trace) && ClosedAt(trace, i, id) && i < j < |trace|
    ensures trace[j].Send? || trace[j].Receive? ==> trace[j].id != id
  {
    assert LawfulAt(trace, j);
    ClosedStays(trace, i, j, id);
  }

  /** What is accepted is open, and what is open stays so until it is closed. */
  lemma AccountedNext(m: Past, e: Event, id: nat)
    requires Lawful(m, e)
    ensures id < Then(m, e).accepted ==> id < m.accepted || id in Then(m, e).open.Values
    ensures id in m.open.Values ==> id in Then(m, e).open.Values || (e.Close? && e.id == id)
  {
    if e.Accept? && e.id == id {
      assert Then(m, e).open[e.fd] == id;
    }
    if fd :| fd in m.open && m.open[fd] == id {
      assert fd in Then(m, e).open ==> Then(m, e).open[fd] == id;
    }
  }

  /** Every connection accepted has been closed, or is open now. */
  lemma {:induction false} Accounted(trace: seq<Event>, n: nat, id: nat)
    requires LawfulTrace(trace) && n <= |trace| && id < After(trace[..n]).accepted
    ensures id in After(trace[..n]).open.Values || exists i :: 0 <= i < n && ClosedAt(trace, i, id)
    decreases n
  {
    if n > 0 {
      AfterNext(trace, n - 1);
      assert LawfulAt(trace, n - 1);
      AccountedNext(After(trace[..n - 1]), trace[n - 1], id);
      if id < After(trace[..n - 1]).accepted {
        Accounted(trace, n - 1, id);
        assert trace[n - 1].Close? && trace[n - 1].id == id ==> ClosedAt(trace, n - 1, id);
      }
    }
  }

  predicate CallbackAt(trace: seq<Event>, i: nat) {
    i < |trace| && (trace[i].Connected? || trace[i].Disconnected?)
  }

  /** No callback at events `i` to `j - 1`. */
  ghost predicate NoCallback(trace: seq<Event>, i: nat, j: nat) {
    forall m :: i <= m < j ==> !CallbackAt(trace, m)
  }

  lemma NoCallbackNext(m: Past, e: Event)
    requires !e.Connected? && !e.Disconnected?
    ensures Then(m, e).announced == m.announced
  {
  }

  lemma {:induction false} AnnouncedMeans(trace: seq<Event>, i: nat, j: nat)
    requires i <= j <= |trace| && NoCallback(trace, i, j)
    ensures After(trace[..j]).announced == After(trace[..i]).announced
    decreases j
  {
    if i < j {
      assert !CallbackAt(trace, j - 1);
      AnnouncedMeans(trace, i, j - 1);
      NoCallbackNext(After(trace[..j - 1]), trace[j - 1]);
      AfterNext(trace, j - 1);
    }
  }

  /** The callbacks alternate: the first is a connect, and the next after a connect is the
      disconnect of the same client, and after a disconnect a connect. */
  lemma CallbacksAlternate(trace: seq<Event>, i: nat, j: nat)
    requires LawfulTrace(trace) && CallbackAt(trace, j)
    ensures NoCallback(trace, 0, j) ==> trace[j].Connected?
    ensures i < j && CallbackAt(trace, i) && NoCallback(trace, i + 1, j) ==>
              if trace[i].Connected? then trace[j] == Disconnected(trace[i].id) else trace[j].Connected?
  {
    assert LawfulAt(trace, j);
    if NoCallback(trace, 0, j) {
      AnnouncedMeans(trace, 0, j);
    }
    if i < j && CallbackAt(trace, i) && NoCallback(trace, i + 1, j) {
      assert LawfulAt(trace, i);
      AfterNext(trace, i);
      AnnouncedMeans(trace, i + 1, j);
    }
  }

  lemma UnreadNext(m: Past, e: Event)
    ensures Then(m, e).unread.Some? ==> Then(m, e).unread == if e.Select? then e.readable else m.unread
  {
  }

  lemma {:induction false} UnreadMeans(trace: seq<Event>, n: nat) returns (i: nat)
    requires n <= |trace| && After(trace[..n]).unread.Some?
    ensures i < n && trace[i].Select? && trace[i].readable == After(trace[..n]).unread
    ensures forall m :: i < m < n ==> !trace[m].Select?
  {
    AfterNext(trace, n - 1);
    UnreadNext(After(trace[..n - 1]), trace[n - 1]);
    if trace[n - 1].Select? {
      i := n - 1;
    } else {
      i := UnreadMeans(trace, n - 1);
    }
  }

  /** A message is read only from the very connection that the latest `select` reported. */
  lemma ReadsWhatWasSelected(trace: seq<Event>, n: nat) returns (i: nat)
    requires LawfulTrace(trace) && n < |trace| && trace[n].Receive?
    ensures i < n && trace[i].Select? && trace[i].readable == Some(trace[n].id)
    ensures forall m :: i < m < n ==> !trace[m].Select?
  {
    assert LawfulAt(trace, n);
    i := UnreadMeans(trace, n);
  }

  // ----- what is due is done -----

  /** The trace has an event after event `i`, or ends with nothing due. */
  predicate GoesOn(trace: seq<Event>, i: nat) {
    i < |trace| && (i + 1 == |trace| ==> After(trace).due == Nothing)
  }

  /** What event `i` leaves due comes next. */
  lemma DueNext(trace: seq<Event>, i: nat)
    requires LawfulTrace(trace) && GoesOn(trace, i)
    ensures var due := Then(After(trace[..i]), trace[i]).due;
            due != Nothing ==>
              i + 1 < |trace| && Lawful(Then(After(trace[..i]), trace[i]), trace[i + 1])
  {
    AfterNext(trace, i);
    if i + 1 < |trace| {
      assert LawfulAt(trace, i + 1);
    } else {
      assert trace[..i + 1] == trace;
    }
  }

  /** Event `i` closes connection `id`, and the callback is told. */
  predicate DroppedAt(trace: seq<Event>, i: nat, id: nat) {
    ClosedAt(trace, i, id) && i + 1 < |trace| && trace[i + 1] == Disconnected(id)
  }

  /** The trace has come to an end of a turn. */
  ghost predicate Done(trace: seq<Event>) {
    LawfulTrace(trace) && Over(After(trace))
  }

  lemma CloseIsTold(trace: seq<Event>, i: nat, id: nat)
    requires Done(trace) && ClosedAt(trace, i, id)
    ensures DroppedAt(trace, i, id)
  {
    DueNext(trace, i);
  }

  /** A failed receive or send, or a heartbeat that timed out, drops the client it was for, at
      once, and the callback is told. */
  lemma FailureDrops(trace: seq<Event>, i: nat)
    requires Done(trace) && i < |trace|
    requires ((trace[i].Receive? || trace[i].Send?) && !trace[i].ok) || trace[i].TimedOut?
    ensures DroppedAt(trace, i + 1, trace[i].id)
  {
    DueNext(trace, i);
    CloseIsTold(trace, i + 1, trace[i].id);
  }

  /** A client is dropped for nothing else: just before, a receive or send of it had failed, its
      heartbeat had timed out, or another connection had been accepted. */
  lemma DroppedForCause(trace: seq<Event>, i: nat, id: nat)
    requires LawfulTrace(trace) && ClosedAt(trace, i, id)
    ensures i > 0
    ensures var e := trace[i - 1];
            || ((e.Receive? || e.Send?) && !e.ok && e.id == id)
            || (e.TimedOut? && e.id == id)
            || (e.Accept? && e.id != id)
  {
    assert LawfulAt(trace, i);
    assert i > 0;
    AfterNext(trace, i - 1);
    AllNumbered(trace, i - 1);
    assert LawfulAt(trace, i - 1);
    CurrentOpen(trace, i - 1);
  }

  /** The client's connection is open. */
  lemma {:induction false} CurrentOpen(trace: seq<Event>, n: nat)
    requires LawfulTrace(trace) && n <= |trace|
    ensures var m := After(trace[..n]); m.current.Some? ==> m.current.value in m.open.Values
    decreases n
  {
    if n > 0 {
      AfterNext(trace, n - 1);
      CurrentOpen(trace, n - 1);
      assert LawfulAt(trace, n - 1);
      var before, m, e := After(trace[..n - 1]), After(trace[..n]), trace[n - 1];
      if e.Accept? && before.current.Some? {
        var fd :| fd in before.open && before.open[fd] == before.current.value;
        assert m.open[fd] == before.current.value;
      }
    }
  }

  /** Events `i` and on make connection `id` the client: its heartbeat starts, and the callback is told. */
  predicate JoinsAt(trace: seq<Event>, i: nat, id: nat) {
    i + 1 < |trace| && trace[i].Heard? && trace[i].id == id && trace[i + 1] == Connected(id)
  }

  lemma StampJoins(trace: seq<Event>, i: nat, id: nat)
    requires Done(trace) && GoesOn(trace, i) && After(trace[..i]).heir == Some(id)
    requires After(trace[..i]).due == Stamp(id) && i < |trace|
    ensures JoinsAt(trace, i, id)
  {
    assert LawfulAt(trace, i);
    DueNext(trace, i);
  }

  /** A pending connection is accepted, or `accept` fails; one that was accepted supersedes the
      client that was there, which is dropped first, and becomes the client. */
  lemma AcceptedJoins(trace: seq<Event>, i: nat, id: nat)
    requires Done(trace) && i < |trace| && trace[i].Accept? && trace[i].id == id
    ensures match After(trace[..i]).current
            case None => JoinsAt(trace, i + 1, id)
            case Some(was) => DroppedAt(trace, i + 1, was) && JoinsAt(trace, i + 3, id)
  {
    var was := After(trace[..i]).current;
    AfterNext(trace, i);
    assert LawfulAt(trace, i);
    DueNext(trace, i);
    if was.None? {
      StampJoins(trace, i + 1, id);
    } else {
      AfterNext(trace, i + 1);
      DueNext(trace, i + 1);
      AfterNext(trace, i + 2);
      DueNext(trace, i + 2);
      StampJoins(trace, i + 3, id);
    }
  }

  lemma PendingAccepted(trace: seq<Event>, i: nat)
    requires Done(trace) && i < |trace| && trace[i].Select? && trace[i].pending
    ensures i + 1 < |trace| && (trace[i + 1].Accept? || trace[i + 1].AcceptFailed?)
  {
    DueNext(trace, i);
  }

  /** A message received starts the heartbeat again, and is handed to the callback. */
  lemma ReceivedHanded(trace: seq<Event>, i: nat, id: nat)
    requires Done(trace) && i < |trace| && trace[i].Receive? && trace[i].ok && trace[i].id == id
    ensures i + 2 < |trace| && trace[i + 1].Heard? && trace[i + 1].id == id && trace[i + 2] == Message(id)
  {
    assert LawfulAt(trace, i);
    HeirOnlyDue(trace, i);
    AfterNext(trace, i);
    DueNext(trace, i);
    DueNext(trace, i + 1);
  }

  /** With nothing due, no connection waits to become the client. */
  lemma {:induction false} HeirOnlyDue(trace: seq<Event>, n: nat)
    requires LawfulTrace(trace) && n <= |trace|
    ensures var m := After(trace[..n]);
            m.heir.Some? ==> m.due.Drop? || m.due.Tell? || m.due == Stamp(m.heir.value) || m.due == Join(m.heir.value)
    ensures var m := After(trace[..n]); m.due.Admit? ==> m.heir == None
    decreases n
  {
    if n > 0 {
      AfterNext(trace, n - 1);
      HeirOnlyDue(trace, n - 1);
      assert LawfulAt(trace, n - 1);
    }
  }

  predicate TurnAt(trace: seq<Event>, i: nat) {
    i < |trace| && (trace[i].Select? || trace[i].SelectFailed?)
  }

  /** Event `i` begins a turn, which is over before event `j`. */
  ghost predicate TurnIs(trace: seq<Event>, i: nat, j: nat) {
    && TurnAt(trace, i) && i < j <= |trace| && (j == |trace| || TurnAt(trace, j))
    && forall m :: i < m < j ==> !TurnAt(trace, m)
  }

  lemma TurnOver(trace: seq<Event>, j: nat)
    requires Done(trace) && j <= |trace| && (j == |trace| || TurnAt(trace, j))
    ensures Over(After(trace[..j]))
  {
    if j < |trace| {
      assert LawfulAt(trace, j);
    } else {
      assert trace[..j] == trace;
    }
  }

  lemma {:induction false} UnreadUntil(trace: seq<Event>, i: nat, j: nat, id: nat)
    requires i < j <= |trace| && trace[i].Select? && trace[i].readable == Some(id)
    requires forall m :: i < m < j ==> !TurnAt(trace, m)
    requires forall m :: i < m < j ==> !trace[m].Receive? && !ClosedAt(trace, m, id)
    ensures After(trace[..j]).unread == Some(id)
    decreases j
  {
    AfterNext(trace, j - 1);
    if i < j - 1 {
      assert !TurnAt(trace, j - 1) && !ClosedAt(trace, j - 1, id);
      UnreadUntil(trace, i, j - 1, id);
    }
  }

  /** A client that can be read is read in the same turn, unless it was dropped before. */
  lemma ReadableIsRead(trace: seq<Event>, i: nat, j: nat, id: nat)
    requires Done(trace) && TurnIs(trace, i, j) && trace[i].Select? && trace[i].readable == Some(id)
    ensures exists m :: i < m < j && (trace[m].Receive? || ClosedAt(trace, m, id))
  {
    TurnOver(trace, j);
    if forall m :: i < m < j ==> !trace[m].Receive? && !ClosedAt(trace, m, id) {
      UnreadUntil(trace, i, j, id);
    }
  }

  lemma {:induction false} UncheckedUntil(trace: seq<Event>, i: nat, j: nat)
    requires TurnAt(trace, i) && i < j <= |trace|
    requires forall m :: i < m < j ==> !TurnAt(trace, m) && !trace[m].Alive?
    ensures !After(trace[..j]).checked
    decreases j
  {
    AfterNext(trace, j - 1);
    if i < j - 1 {
      assert !TurnAt(trace, j - 1);
      UncheckedUntil(trace, i, j - 1);
    }
  }

  /** The client was last heard when its heartbeat last started. */
  lemma {:induction false} LastHeard(trace: seq<Event>, i: nat, n: nat)
    requires i < n <= |trace| && trace[i].Heard? && forall m :: i < m < n ==> !trace[m].Heard?
    ensures After(trace[..n]).heard == trace[i].at
    decreases n
  {
    AfterNext(trace, n - 1);
    if i < n - 1 {
      LastHeard(trace, i, n - 1);
    }
  }

  lemma {:induction false} LimitIs(trace: seq<Event>, n: nat)
    requires LawfulTrace(trace) && 0 < n <= |trace|
    ensures trace[0].Started? && After(trace[..n]).limit == Some(trace[0].limit)
    decreases n
  {
    AfterNext(trace, n - 1);
    assert LawfulAt(trace, n - 1);
    if n > 1 {
      LimitIs(trace, n - 1);
    } else {
      assert trace[..0] == [];
    }
  }

  /** In every turn that leaves a client its heartbeat was looked at, and found within the timeout. */
  lemma HeartbeatEveryTurn(trace: seq<Event>, i: nat, j: nat) returns (m: nat)
    requires Done(trace) && TurnIs(trace, i, j) && After(trace[..j]).current.Some?
    ensures i < m < j && trace[m].Alive? && trace[0].Started?
    ensures (trace[m].at - After(trace[..m]).heard) % TICKS < trace[0].limit
  {
    TurnOver(trace, j);
    if forall m :: i < m < j ==> !TurnAt(trace, m) && !trace[m].Alive? {
      UncheckedUntil(trace, i, j);
    }
    m :| i < m < j && trace[m].Alive?;
    assert LawfulAt(trace, m);
    LimitIs(trace, m);
  }

  lemma {:induction false} UnpolledUntil(trace: seq<Event>, i: nat, j: nat)
    requires TurnAt(trace, i) && i < j <= |trace|
    requires forall m :: i < m < j ==> !TurnAt(trace, m) && !trace[m].Poll?
    ensures !After(trace[..j]).polled
    decreases j
  {
    AfterNext(trace, j - 1);
    if i < j - 1 {
      assert !TurnAt(trace, j - 1);
      UnpolledUntil(trace, i, j - 1);
    }
  }

  /** Every turn does the periodic work. */
  lemma WorkEveryTurn(trace: seq<Event>, i: nat, j: nat) returns (m: nat)
    requires Done(trace) && TurnIs(trace, i, j)
    ensures i < m < j && trace[m].Poll?
  {
    TurnOver(trace, j);
    if forall m :: i < m < j ==> !TurnAt(trace, m) && !trace[m].Poll? {
      UnpolledUntil(trace, i, j);
    }
    m :| i < m < j && trace[m].Poll?;
  }

  /** The turns of a trace. */
  function Turns(trace: seq<Event>): nat {
    if trace == [] then 0
    else Turns(trace[..|trace| - 1]) + if TurnAt(trace, |trace| - 1) then 1 else 0
  }

  lemma {:induction false} TurnsPlus(trace: seq<Event>, n: nat)
    requires n <= |trace|
    ensures Turns(trace) >= Turns(trace[..n])
    ensures Turns(trace) == Turns(trace[..n]) <==> forall m :: n <= m < |trace| ==> !TurnAt(trace, m)
    decreases |trace|
  {
    if n < |trace| {
      var init := trace[..|trace| - 1];
      TurnsPlus(init, n);
      assert init[..n] == trace[..n];
      assert forall m :: 0 <= m < |init| ==> TurnAt(trace, m) == TurnAt(init, m);
    } else {
      assert trace[..n] == trace;
    }
  }

  /** One more turn that begins at once is one turn and no more. */
  lemma OneTurn(before: seq<Event>, after: seq<Event>)
    requires before <= after && |before| < |after| && TurnAt(after, |before|)
    requires Turns(after) == Turns(before) + 1
    ensures TurnIs(after, |before|, |after|)
  {
    var n := |before|;
    assert after[..n + 1][..n] == after[..n] == before;
    assert TurnAt(after[..n + 1], n);
    TurnsPlus(after, n + 1);
  }

  // ----- the server -----

  const NONE := -1

  class Server {
    const heartbeat: u32 // the heartbeat timeout, in ticks
    var clientSock: int
    var lastRxTick: u32
    /** The network stack's side: open descriptors, and connections accepted so far. */
    var open: map<nat, nat>
    var accepted: nat
    ghost var trace: seq<Event>
    ghost var past: Past // of the trace
    /** True time, of which the server sees only a 32-bit tick counter. */
    var clock: nat

    function Client(): Option<nat>
      reads this
    {
      if clientSock in open then Some(open[clientSock]) else None
    }

    /** The client is the one that the callback was last told of. */
    ghost predicate Told()
      reads this
    {
      && Recorded(trace, past) && past.limit == Some(heartbeat)
      && (clientSock == NONE || clientSock in open)
      && past.accepted == accepted && past.open == open && past.current == past.announced == Client()
      && (past.heir.Some? ==> past.due != Nothing) && (past.unread == None || past.unread == past.current)
      && past.time <= clock && past.heard <= clock && lastRxTick == TickCount(past.heard)
    }

    /** Nothing is due, so that the application may send. */
    ghost predicate Free()
      reads this
    {
      Told() && (clientSock != NONE ==> past.due == Nothing)
    }

    /** In the run loop, nothing is open but the client. */
    ghost predicate Alone()
      reads this
    {
      Told() && past.heir == None && forall fd :: fd in open ==> fd == clientSock
    }

    /** Between two turns: nothing is due, and the client was heard within the timeout. */
    ghost predicate Settled()
      reads this
    {
      Alone() && Over(past) && (clientSock != NONE ==> (clock - past.heard) % TICKS < heartbeat)
    }

    /** At most the client has been dropped, and told so. */
    twostate predicate OnlyDropped()
      reads this
    {
      && old(trace) <= trace && Turns(trace) == Turns(old(trace))
      && accepted == old(accepted) && lastRxTick == old(lastRxTick) && clock == old(clock)
      && past.heard == old(past.heard) && past.heir == old(past.heir) && past.checked == old(past.checked)
      && past.polled == old(past.polled)
      && (past.unread == old(past.unread) || past.unread == None)
      && (clientSock == old(clientSock) || clientSock == NONE)
      && (clientSock == old(clientSock) ==> past.unread == old(past.unread))
      && open == if clientSock == old(clientSock) then old(open) else old(open) - {old(clientSock)}
    }

    constructor (heartbeatTicks: u32)
      ensures Settled() && trace == [Started(heartbeatTicks)] && heartbeat == heartbeatTicks && clientSock == NONE
      ensures clock == 0
    {
      heartbeat := heartbeatTicks;
      clientSock, lastRxTick, open, accepted, clock := NONE, 0, map[], 0, 0;
      trace, past := [], NOTHING;
      new;
      Record(Started(heartbeatTicks));
    }

    ghost method Record(e: Event)
      requires Recorded(trace, past) && Lawful(past, e)
      modifies this`trace, this`past
      ensures Recorded(trace, past) && trace == old(trace) + [e] && past == Then(old(past), e)
      ensures Turns(trace) == Turns(old(trace)) + if e.Select? || e.SelectFailed? then 1 else 0
    {
      LawfulNext(trace, e);
      trace, past := trace + [e], Then(past, e);
    }

    // The environment: each call is an event, with what came of it.

    method ReadTicks() returns (now: u32)
      modifies this`clock
      ensures clock >= old(clock) && now == TickCount(clock)
    {
      var passed :| passed >= 0;
      clock := clock + passed;
      now := TickCount(clock);
    }

    method SendOn(sock: nat) returns (ok: bool)
      requires Told() && past.due == Nothing && clientSock == sock
      modifies this`trace, this`past
      ensures Told() && past == Then(old(past), Send(sock, open[sock], ok))
      ensures trace == old(trace) + [Send(sock, open[sock], ok)] && Turns(trace) == Turns(old(trace))
    {
      ok := *;
      Record(Send(sock, open[sock], ok));
    }

    method ReceiveFrom(sock: nat) returns (ok: bool)
      requires Told() && past.due == Nothing && clientSock == sock && past.unread == Client()
      modifies this`trace, this`past
      ensures Told() && past == Then(old(past), Receive(sock, open[sock], ok))
      ensures trace == old(trace) + [Receive(sock, open[sock], ok)] && Turns(trace) == Turns(old(trace))
    {
      ok := *;
      Record(Receive(sock, open[sock], ok));
    }

    /** A descriptor that is not in use, or -1. */
    method AcceptOn() returns (sock: int)
      requires Told() && past.due == Admit && past.heir == None
      modifies this`trace, this`past, this`open, this`accepted
      ensures Told() && clientSock == old(clientSock)
      ensures Turns(trace) == Turns(old(trace))
      ensures if sock < 0 then
                trace == old(trace) + [AcceptFailed] && past == Then(old(past), AcceptFailed)
                && open == old(open) && accepted == old(accepted)
              else
                sock !in old(open) && trace == old(trace) + [Accept(sock, old(accepted))]
                && past == Then(old(past), Accept(sock, old(accepted)))
                && open == old(open)[sock := old(accepted)] && accepted == old(accepted) + 1
    {
      sock := *;
      if sock < 0 || sock in open {
        sock := -1;
        Record(AcceptFailed);
      } else {
        Record(Accept(sock, accepted));
        open, accepted := open[sock := accepted], accepted + 1;
      }
    }

    /** Whether a connection waits, and whether the client can be read. */
    method SelectOn(sock: int) returns (failed: bool, pending: bool, readable: bool)
      requires Settled() && sock == clientSock
      modifies this`trace, this`past
      ensures Alone() && Turns(trace) == Turns(old(trace)) + 1 && (readable ==> !failed && sock != NONE)
      ensures |trace| == |old(trace)| + 1 && old(trace) <= trace
      ensures trace[|old(trace)|] == (if failed then SelectFailed
                                      else Select(pending, if readable then Client() else None))
      ensures past.due == (if !failed && pending then Admit else Nothing)
      ensures past.unread == (if readable then Client() else None)
    {
      failed, pending, readable := *, *, *;
      readable := readable && !failed && sock != NONE;
      if failed {
        Record(SelectFailed);
      } else {
        Record(Select(pending, if readable then Client() else None));
      }
    }

    // The server.

    /** The application's callbacks and polled work may send any number of messages. */
    method Application()
      requires Free()
      modifies this
      ensures Free() && OnlyDropped()
      ensures past.due == old(past.due)
      decreases if clientSock == NONE then 0 else 1, 2
    {
      var n: nat := *;
      while n > 0
        invariant Free() && OnlyDropped() && past.due == old(past.due)
      {
        PscSend();
        n := n - 1;
      }
    }

    /** A message goes to the client, and a failure drops it. */
    method PscSend()
      requires Free()
      modifies this
      ensures Free() && OnlyDropped() && past.due == old(past.due)
      ensures if old(clientSock) == NONE then trace == old(trace)
              else exists ok :: Follows(old(trace), Send(old(clientSock), old(open[clientSock]), ok), trace)
                                && (ok <==> clientSock != NONE)
      decreases if clientSock == NONE then 0 else 1, 1
    {
      if clientSock == NONE {
        return;
      }
      var sock := clientSock;
      var ok := SendOn(sock);
      ghost var sent := trace;
      if !ok {
        if clientSock == sock {
          DisconnectClient();
        }
      }
      assert old(trace) <= sent <= trace;
      assert Follows(old(trace), Send(sock, old(open[clientSock]), ok), trace);
    }

    /** The client is marked gone before anything else, so that the callback cannot send to it. */
    method HangUp()
      requires Told() && clientSock != NONE && past.due == Drop(open[clientSock])
      modifies this
      ensures Told() && OnlyDropped() && clientSock == NONE
      ensures past.due == if past.heir.Some? then Stamp(past.heir.value) else Nothing
      ensures trace == old(trace) + [Close(old(clientSock), old(open[clientSock])), Disconnected(old(open[clientSock]))]
    {
      var sock := clientSock;
      var id := open[sock];
      clientSock := NONE;
      open := open - {sock};
      Record(Close(sock, id));
      ghost var closed := trace;
      Record(Disconnected(id));
      assert old(trace) <= closed <= trace;
      assert past.open == open == old(open) - {sock};
    }

    method DisconnectClient()
      requires Told() && (clientSock != NONE ==> past.due == Drop(open[clientSock]))
      modifies this
      ensures Told() && OnlyDropped() && clientSock == NONE
      ensures past.due == if old(clientSock) == NONE then old(past.due)
                          else if past.heir.Some? then Stamp(past.heir.value) else Nothing
      decreases if clientSock == NONE then 0 else 1, 0
    {
      if clientSock != NONE {
        HangUp();
        ghost var before := trace;
        Application();
        assert old(trace) <= before <= trace;
      }
    }

    /** The heartbeat of connection `id` starts again. */
    method Restart(ghost id: nat)
      requires Recorded(trace, past) && past.due == Stamp(id) && past.time <= clock
      modifies this`clock, this`lastRxTick, this`trace, this`past
      ensures Recorded(trace, past) && clock >= old(clock) && lastRxTick == TickCount(clock)
      ensures trace == old(trace) + [Heard(id, clock)] && past == Then(old(past), Heard(id, clock))
      ensures Turns(trace) == Turns(old(trace))
    {
      lastRxTick := ReadTicks();
      Record(Heard(id, clock));
    }

    /** The accepted connection becomes the client. */
    method Adopt(sock: nat)
      requires Told() && clientSock == NONE && sock in open && (forall fd :: fd in open ==> fd == sock)
      requires past.heir == Some(open[sock]) && past.due == Stamp(open[sock])
      modifies this
      ensures Alone() && past.due == Nothing && old(trace) <= trace && Turns(trace) == Turns(old(trace))
      ensures past.unread == None && accepted == old(accepted)
      ensures clientSock == NONE || (clientSock == sock && Client() == Some(old(open)[sock]))
    {
      ghost var id := open[sock];
      Restart(id);
      ghost var before := trace;
      clientSock := sock;
      Record(Connected(id));
      ghost var between := trace;
      Application();
      assert old(trace) <= before <= between <= trace;
    }

    /** A new connection supersedes the old one. `accept` never returns a descriptor in use, so
        the client that was there is not there afterwards. */
    method AcceptClient()
      requires Alone() && past.due == Admit && past.limit.Some?
      modifies this
      ensures Alone() && past.due == Nothing && old(trace) <= trace && Turns(trace) == Turns(old(trace))
      ensures clientSock == old(clientSock) && clientSock != NONE ==>
                Client() == old(Client()) && past.unread == old(past.unread)
      ensures clientSock != old(clientSock) ==> past.unread == None
      ensures accepted == old(accepted) ==> clientSock == old(clientSock) && trace == old(trace) + [AcceptFailed]
      ensures accepted != old(accepted) ==> clientSock == NONE || Client() == Some(old(accepted))
    {
      var sock := AcceptOn();
      if sock < 0 {
        return;
      }
      ghost var before := trace;
      if clientSock != NONE {
        DisconnectClient();
      }
      ghost var between := trace;
      Adopt(sock);
      assert old(trace) <= before <= between <= trace;
    }

    /** Reads one message from the client that `select` reported. */
    method ReceiveClient()
      requires Alone() && clientSock != NONE && past.due == Nothing && past.unread == Client()
      modifies this
      ensures Alone() && past.due == Nothing && past.unread == None
      ensures old(trace) <= trace && Turns(trace) == Turns(old(trace))
      ensures exists ok :: Follows(old(trace), Receive(old(clientSock), old(open[clientSock]), ok), trace)
                           && (!ok ==> clientSock == NONE)
      ensures clientSock != NONE ==> past.heard >= old(clock)
    {
      var id := open[clientSock];
      var ok := ReceiveFrom(clientSock);
      ghost var read := trace;
      if !ok {
        DisconnectClient();
        assert old(trace) <= read <= trace;
      } else {
        Restart(id);
        ghost var heard := trace;
        Record(Message(id));
        ghost var handed := trace;
        Application();
        assert old(trace) <= read <= heard <= handed <= trace;
      }
      assert Follows(old(trace), Receive(old(clientSock), old(open[clientSock]), ok), trace);
    }

    /** Drops the client exactly when nothing has been heard of it for the timeout, whether or
        not the counter has wrapped in between; but whole turns of the counter do not show. */
    method CheckHeartbeat()
      requires Alone() && past.due == Nothing && past.unread == None
      modifies this
      ensures Alone() && past.due == Nothing && past.unread == None && past.heard == old(past.heard)
      ensures old(trace) <= trace && Turns(trace) == Turns(old(trace))
      ensures clientSock != NONE ==> past.checked && Client() == old(Client())
      ensures old(clientSock) != NONE ==>
                (clientSock == NONE <==> (clock - past.heard) % TICKS >= heartbeat)
    {
      if clientSock != NONE {
        var now := ReadTicks();
        ElapsedNeverLong(past.heard, clock);
        var id := open[clientSock];
        if Elapsed(lastRxTick, now) >= heartbeat {
          Record(TimedOut(id, clock));
          ghost var late := trace;
          DisconnectClient();
          assert old(trace) <= late <= trace;
        } else {
          Record(Alive(id, clock));
        }
      }
    }

    /** What `select` reported: a connection that waits is accepted first, and then the client
        is read, if it is still the one that was looked at. */
    method Serve(selected: int, pending: bool, readable: bool)
      requires Alone() && selected == clientSock && past.due == (if pending then Admit else Nothing)
      requires past.unread == (if readable then Client() else None) && (readable ==> selected != NONE)
      modifies this
      ensures Alone() && past.due == Nothing && past.unread == None
      ensures old(trace) <= trace && Turns(trace) == Turns(old(trace))
    {
      if pending {
        AcceptClient();
      }
      ghost var between := trace;
      if selected != NONE && clientSock == selected && readable {
        ReceiveClient();
      }
      assert old(trace) <= between <= trace;
    }

    /** `pscdata_poll`, which may send any number of messages. */
    method PollData()
      requires Alone() && past.due == Nothing && past.unread == None && (clientSock != NONE ==> past.checked)
      requires clientSock != NONE ==> (clock - past.heard) % TICKS < heartbeat
      modifies this
      ensures Settled() && old(trace) <= trace && Turns(trace) == Turns(old(trace))
    {
      Record(Poll);
      ghost var polled := trace;
      Application();
      assert old(trace) <= polled <= trace;
    }

    /** One turn of the run loop. It begins with a `select`, whatever comes of that; it leaves
        nothing due, no readable client unread, and no client that was silent for the timeout. */
    method Turn()
      requires Settled()
      modifies this
      ensures Settled() && old(trace) <= trace && Turns(trace) == Turns(old(trace)) + 1
      ensures |trace| > |old(trace)| && TurnIs(trace, |old(trace)|, |trace|)
    {
      var selected := clientSock;
      var failed, pending, readable := SelectOn(selected);
      ghost var began := trace;
      if !failed {
        Serve(selected, pending, readable);
      }
      ghost var served := trace;
      CheckHeartbeat();
      ghost var checked := trace;
      PollData();
      assert began <= served <= checked <= trace;
      OneTurn(old(trace), trace);
    }

    /** Any number of turns. Every run leaves a lawful trace with nothing due, of that many turns,
        with every connection that was ever accepted either the client or closed. */
    method PscRun(turns: nat)
      requires Settled()
      modifies this
      ensures Settled() && old(trace) <= trace
      ensures Done(trace) && Turns(trace) == Turns(old(trace)) + turns
      ensures forall id :: 0 <= id < accepted ==>
                Client() == Some(id) || exists i :: ClosedAt(trace, i, id)
    {
      var n := 0;
      while n < turns
        invariant 0 <= n <= turns && Settled() && old(trace) <= trace && Turns(trace) == Turns(old(trace)) + n
      {
        Turn();
        n := n + 1;
      }
      forall id | 0 <= id < accepted
        ensures Client() == Some(id) || exists i :: ClosedAt(trace, i, id)
      {
        assert trace[..|trace|] == trace;
        Accounted(trace, |trace|, id);
      }
    }
  }
}
