/** The engine's run as a computation on values: the changing state of the club as one record,
    one function per handler of processInputEvent and per reaction of processGeneratedEvent,
    one turn of the process() loop, the loop as a recursive run over the input lines, and the
    whole program from its input lines to its outcome and output. The class RevenuerManager is
    proved to compute exactly this. */
module ClubRun {
  import opened Decimal
  import opened CharSources
  import opened BaseParsers
  import opened InputEvents
  import opened EventFormat
  import opened ManagerData
  import opened StringOrder
  import opened ClubState

  /** Everything the engine changes while it runs: the clients and their seats, the busy-since
      times, the free-table count, the wait queue, the statistics, the queued reactions, the
      deferred event, the last accepted time, the input position and the buffered lines. */
  datatype Club = Club(
    clients: map<string, Seat>, busy: seq<int>, free: int, queue: seq<string>,
    stats: seq<TableStatistic>, pending: seq<GeneratedEvent>, deferred: Option<InputEvent>,
    last: int, next: nat, prepared: seq<string>)

  /** The table at seat exists, is busy, and became busy no later than now. Every state the
      engine reaches meets this for the table of a seated client. */
  predicate Billable(c: Club, seat: int, now: nat)
  {
    0 <= seat < |c.busy| && |c.busy| == |c.stats| && 0 <= c.busy[seat] <= now
  }

  /** unsetClientFromTable: the client's table, if it has one, is billed up to now and
      freed. */
  function UnsetStep(c: Club, cost: nat, id: string, now: nat): Club
  {
    var seat := if id in c.clients then c.clients[id] else NoTable;
    if seat != NoTable && Billable(c, seat, now) then
      c.(stats := Released(c.stats, c.busy, seat, now, cost), busy := Vacate(c.busy, seat), free := c.free + 1)
    else c
  }

  /** Unsetting a seated client bills and frees the client's table. */
  lemma UnsetSeated(c: Club, cost: nat, id: string, now: nat)
    requires id in c.clients && c.clients[id] != NoTable && Billable(c, c.clients[id], now)
    ensures UnsetStep(c, cost, id, now)
      == c.(stats := Released(c.stats, c.busy, c.clients[id], now, cost), busy := Vacate(c.busy, c.clients[id]), free := c.free + 1)
  {
  }

  /** setClientToTable: the client's old table is released, the new one is busy from now and
      the client holds it. */
  function SeatStep(c: Club, cost: nat, id: string, now: nat, table: nat): Club
  {
    var d := UnsetStep(c, cost, id, now);
    if table < |d.busy| then d.(busy := d.busy[table := now], clients := d.clients[id := table], free := d.free - 1)
    else d
  }

  /** removeClient: the client's table is released and the client is gone. */
  function RemoveStep(c: Club, cost: nat, id: string, now: nat): Club
  {
    var d := UnsetStep(c, cost, id, now);
    d.(clients := d.clients - {id})
  }

  /** A reaction joins the back of the queue. */
  function Queued(c: Club, g: GeneratedEvent): Club
  {
    c.(pending := c.pending + [g])
  }

  /** kickOutLeftClients: a forced leave at closing time for every present client, in
      ascending name order. */
  ghost function KickStep(c: Club, end: nat): Club
  {
    c.(pending := c.pending + Evictions(end, SortedKeys(c.clients.Keys)))
  }

  /** processClientArrive. */
  function ArriveStep(c: Club, config: Config, e: InputEvent): Club
  {
    if e.time < config.beginTime || e.time >= config.endTime then Queued(c, ErrorEvent(e.time, "NotOpenYet"))
    else if e.clientId in c.clients then Queued(c, ErrorEvent(e.time, "YouShallNotPass"))
    else c.(clients := c.clients[e.clientId := NoTable])
  }

  /** processClientTakeTable; None for a present client asking for a table that does not
      exist, which the source reports with an exception. */
  function TakeTableStep(c: Club, config: Config, e: InputEvent): Option<Club>
    requires e.action.ClientTakeTable?
  {
    var table := e.action.tableId;
    if e.clientId !in c.clients then Some(Queued(c, ErrorEvent(e.time, "ClientUnknown")))
    else if table >= |c.busy| then None
    else if c.busy[table] != NoTable then Some(Queued(c, ErrorEvent(e.time, "PlaceIsBusy")))
    else Some(SeatStep(c, config.costPerHour, e.clientId, e.time, table))
  }

  /** processClientWait. */
  function WaitStep(c: Club, e: InputEvent): Club
  {
    if e.clientId !in c.clients then Queued(c, ErrorEvent(e.time, "ClientUnknown"))
    else if c.free > 0 then Queued(c, ErrorEvent(e.time, "ICanWaitNoLonger!"))
    else if |c.queue| == |c.busy| then Queued(c, ForcedLeave(e.time, e.clientId))
    else c.(queue := c.queue + [e.clientId])
  }

  /** processClientLeave: a seated leaver hands its table to the head of the wait queue. */
  function LeaveStep(c: Club, config: Config, e: InputEvent): Club
  {
    if e.clientId !in c.clients then Queued(c, ErrorEvent(e.time, "ClientUnknown"))
    else
      var seat := c.clients[e.clientId];
      var d := if seat != NoTable && c.queue != [] then Queued(c, SeatFromQueue(e.time, c.queue[0], seat)).(queue := c.queue[1..]) else c;
      RemoveStep(d, config.costPerHour, e.clientId, e.time)
  }

  /** The switch of processInputEvent. */
  function DispatchStep(c: Club, config: Config, e: InputEvent): Option<Club>
  {
    match e.action
    case ClientArrive => Some(ArriveStep(c, config, e))
    case ClientTakeTable(_) => TakeTableStep(c, config, e)
    case ClientWait => Some(WaitStep(c, e))
    case ClientLeave => Some(LeaveStep(c, config, e))
  }

  /** An event at or after closing while clients are present, other than a leave exactly at
      closing, closes the day first. */
  predicate Closing(c: Club, config: Config, e: InputEvent)
  {
    !(e.time == config.endTime && e.action.ClientLeave?) && e.time >= config.endTime && c.clients != map[]
  }

  /** processInputEvent; None for its fatal errors. */
  ghost function InputStep(c: Club, config: Config, e: InputEvent): Option<Club>
  {
    if Closing(c, config, e) then Some(KickStep(c.(deferred := Some(e)), config.endTime))
    else if e.time < c.last then None
    else DispatchStep(c.(last := e.time), config, e)
  }

  /** processGeneratedEvent, after its reaction has left the queue: the reaction's line is
      buffered and the reaction carried out. None where the source dereferences an iterator
      that no longer points at a client. */
  function ReactStep(c: Club, cost: nat, g: GeneratedEvent): Option<Club>
  {
    var d := c.(prepared := c.prepared + [GeneratedText(g)]);
    match g
    case ForcedLeave(t, id) => if id in c.clients then Some(RemoveStep(d, cost, id, t)) else None
    case SeatFromQueue(t, id, table) => if id in c.clients then Some(SeatStep(d, cost, id, t, table)) else None
    case ErrorEvent(_, _) => Some(d)
  }

  /** What a turn of the loop buffered: an input line, or the line of a reaction. */
  datatype Entry = Echo(line: string) | Reaction(event: GeneratedEvent)

  /** A turn either leads to the next state, having buffered the entries log, or ends the
      loop with an outcome. */
  datatype TurnResult = Next(club: Club, log: seq<Entry>) | Halt(outcome: Outcome, club: Club)

  /** The input line at the input position; "" once the input is exhausted, as std::getline
      leaves it. */
  function LineAt(input: seq<string>, next: nat): string
  {
    if next < |input| then input[next] else ""
  }

  /** The input position after reading a line. */
  function Advanced(input: seq<string>, next: nat): nat
  {
    if next < |input| then next + 1 else next
  }

  /** One turn of the loop of process(): the oldest queued reaction, else the deferred event,
      else the next input line. An empty line or the end of the input closes the day while
      clients are present and ends the loop otherwise. A failed turn keeps the state it
      started from. */
  ghost function Turn(c: Club, config: Config, input: seq<string>): TurnResult
  {
    if c.pending != [] then
      match ReactStep(c.(pending := c.pending[1..]), config.costPerHour, c.pending[0])
      case Some(d) => Next(d, [Reaction(c.pending[0])])
      case None => Halt(Undefined, c)
    else if c.deferred.Some? then
      match InputStep(c.(deferred := None), config, c.deferred.value)
      case Some(d) => Next(d, [])
      case None => Halt(Failed(EventText(c.deferred.value)), c)
    else
      var line := LineAt(input, c.next);
      var d := c.(next := Advanced(input, c.next));
      if line == "" then
        if c.clients != map[] then Next(KickStep(d, config.endTime), []) else Halt(Finished, d)
      else
        match ParseLine(line)
        case Err(message) => Halt(Failed(message), c)
        case Ok(e) =>
          match InputStep(d.(prepared := d.prepared + [line]), config, e)
          case Some(d') => Next(d', [Echo(line)])
          case None => Halt(Failed(line), c)
  }

  /** A turn with nothing queued or deferred that reads a non-empty line buffers it, parses it
      and processes its event; a parse error quotes the line's text, a fatal error the line. */
  lemma ReadTurn(c: Club, config: Config, input: seq<string>)
    requires c.pending == [] && c.deferred.None? && c.next < |input| && input[c.next] != ""
    ensures var line := input[c.next];
      var d := c.(next := c.next + 1, prepared := c.prepared + [line]);
      Turn(c, config, input) ==
        match ParseLine(line)
        case Err(message) => Halt(Failed(message), c)
        case Ok(e) =>
          if InputStep(d, config, e).Some? then Next(InputStep(d, config, e).value, [Echo(line)])
          else Halt(Failed(line), c)
  {
    assert LineAt(input, c.next) == input[c.next] && Advanced(input, c.next) == c.next + 1;
  }

  /** A turn with nothing queued or deferred that meets an empty line or the end of the input
      forces the present clients out, or ends the run when nobody is present. */
  lemma BlankTurn(c: Club, config: Config, input: seq<string>)
    requires c.pending == [] && c.deferred.None? && LineAt(input, c.next) == ""
    ensures var d := c.(next := Advanced(input, c.next));
      Turn(c, config, input) ==
        if c.clients != map[] then Next(KickStep(d, config.endTime), []) else Halt(Finished, d)
  {
  }

  /** Every present client is due to be forced out by a queued reaction. */
  predicate AllDue(c: Club)
  {
    c.clients.Keys <= Evictees(c.pending)
  }

  /** A state the loop can resume from: the input position is within the input, and an event
      is deferred only while every present client is due to be forced out. */
  predicate Resumable(c: Club, input: seq<string>)
  {
    c.next <= |input| && (c.deferred.Some? ==> AllDue(c))
  }

  function Deferring(c: Club): nat
  {
    if c.deferred.Some? then 1 else 0
  }

  function Undue(c: Club): nat
  {
    if AllDue(c) then 0 else 1
  }

  /** How a run of the loop ends: the outcome, the state at the end, and what it buffered. */
  datatype Ending = Ending(outcome: Outcome, club: Club, log: seq<Entry>)

  /** The loop of process(), from state c to its end. */
  ghost function Run(c: Club, config: Config, input: seq<string>): Ending
    requires Resumable(c, input)
    decreases |input| - c.next, Deferring(c), Undue(c), |c.pending|
  {
    TurnProgress(c, config, input);
    match Turn(c, config, input)
    case Next(d, log) =>
      var r := Run(d, config, input);
      Ending(r.outcome, r.club, log + r.log)
    case Halt(o, d) => Ending(o, d, [])
  }

  /** A run is its first turn followed by the run from where that turn leads. */
  lemma RunUnfold(c: Club, config: Config, input: seq<string>)
    requires Resumable(c, input)
    ensures var t := Turn(c, config, input);
      && (t.Next? ==>
            && Resumable(t.club, input)
            && var r := Run(t.club, config, input);
               Run(c, config, input) == Ending(r.outcome, r.club, t.log + r.log))
      && (t.Halt? ==> Run(c, config, input) == Ending(t.outcome, t.club, []))
  {
    TurnProgress(c, config, input);
  }

  /** A turn that leads on leaves the outcome and final state of the run unchanged. */
  lemma RunNext(c: Club, config: Config, input: seq<string>, d: Club)
    requires Resumable(c, input) && Turn(c, config, input).Next? && Turn(c, config, input).club == d
    ensures Resumable(d, input)
    ensures Run(d, config, input).outcome == Run(c, config, input).outcome
    ensures Run(d, config, input).club == Run(c, config, input).club
  {
    RunUnfold(c, config, input);
  }

  /** A turn that halts decides the outcome of the run. */
  lemma RunHalt(c: Club, config: Config, input: seq<string>, outcome: Outcome, d: Club)
    requires Resumable(c, input) && Turn(c, config, input) == Halt(outcome, d)
    ensures Run(c, config, input).outcome == outcome && Run(c, config, input).club == d
  {
    RunUnfold(c, config, input);
  }

  /** The state initialize() leaves for a header config, with next lines read. */
  function Opening(config: Config, next: nat): Club
  {
    Club(map[], seq(config.tableCount, _ => NoTable), config.tableCount, [],
      seq(config.tableCount, _ => TableStatistic(0, 0)), [], None, NoTable, next, [FormatTime(config.beginTime)])
  }

  /** What process() reports and writes. */
  datatype Report = Report(outcome: Outcome, output: seq<string>)

  /** The whole program: the header is parsed and the loop run from the opening state; only a
      normal end writes the buffered lines, the closing time and the statistics. */
  ghost function Simulate(input: seq<string>): Report
  {
    var header := ParseHeader(JoinLines(HeaderLines(input)));
    if header.Err? then Report(Failed(header.line), [])
    else
      var config := header.value;
      var r := Run(Opening(config, |HeaderLines(input)|), config, input);
      if r.outcome.Finished? then Report(Finished, r.club.prepared + [FormatTime(config.endTime)] + StatLines(r.club.stats))
      else Report(r.outcome, [])
  }

  // ---------------------------------------------------------------------------------------
  // Termination of the loop

  /** The clients the forced leaves of a + b remove are those of a and those of b. */
  lemma {:induction false} EvicteesConcat(a: seq<GeneratedEvent>, b: seq<GeneratedEvent>)
    ensures Evictees(a + b) == Evictees(a) + Evictees(b)
  {
    if a != [] {
      assert (a + b)[1..] == a[1..] + b;
      EvicteesConcat(a[1..], b);
    } else {
      assert a + b == b;
    }
  }

  /** After the closing evictions are queued, every present client is due to be forced
      out. */
  lemma KickedAllDue(c: Club, end: nat)
    ensures AllDue(KickStep(c, end)) && KickStep(c, end).clients == c.clients
  {
    var keys := SortedKeys(c.clients.Keys);
    EvicteesConcat(c.pending, Evictions(end, keys));
    EvicteesOfEvictions(end, keys);
    SortedKeysMembers(c.clients.Keys);
  }

  /** The part of the state a handler leaves alone: the input position, the buffered lines and
      the deferred event. */
  predicate Framed(c: Club, d: Club)
  {
    d.next == c.next && d.prepared == c.prepared && d.deferred == c.deferred
  }

  lemma TablesFramed(c: Club, cost: nat, id: string, now: nat, table: nat)
    ensures Framed(c, UnsetStep(c, cost, id, now))
    ensures Framed(c, SeatStep(c, cost, id, now, table))
    ensures Framed(c, RemoveStep(c, cost, id, now))
  {
  }

  /** A handler leaves the input position, the buffered lines and the deferred event alone. */
  lemma DispatchFramed(c: Club, config: Config, e: InputEvent)
    requires DispatchStep(c, config, e).Some?
    ensures Framed(c, DispatchStep(c, config, e).value)
  {
    match e.action
    case ClientTakeTable(table) =>
      TablesFramed(c, config.costPerHour, e.clientId, e.time, table);
    case ClientLeave =>
      if e.clientId in c.clients {
        var seat := c.clients[e.clientId];
        var d := if seat != NoTable && c.queue != [] then Queued(c, SeatFromQueue(e.time, c.queue[0], seat)).(queue := c.queue[1..]) else c;
        TablesFramed(d, config.costPerHour, e.clientId, e.time, 0);
      }
    case _ =>
  }

  /** Queuing forced leaves for the present clients in ascending order queues the closing
      evictions. */
  lemma KickedInOrder(c: Club, end: nat, ids: seq<string>)
    requires Ascending(ids) && forall x :: x in ids <==> x in c.clients
    ensures c.(pending := c.pending + Evictions(end, ids)) == KickStep(c, end)
  {
    SortedKeysOfAscending(ids, c.clients.Keys);
  }

  /** processInputEvent keeps the input position, and defers its event only when it queues
      the closing evictions. */
  lemma InputShape(c: Club, config: Config, e: InputEvent)
    requires InputStep(c, config, e).Some?
    ensures var d := InputStep(c, config, e).value;
      && d.next == c.next && d.prepared == c.prepared
      && (d.deferred == c.deferred || (d.deferred == Some(e) && AllDue(d) && Closing(c, config, e)))
  {
    if Closing(c, config, e) {
      KickedAllDue(c.(deferred := Some(e)), config.endTime);
    } else {
      DispatchFramed(c.(last := e.time), config, e);
    }
  }

  /** A reaction removes at most its own client and keeps the input position and the deferred
      event. */
  lemma ReactShape(c: Club, cost: nat, g: GeneratedEvent)
    requires ReactStep(c, cost, g).Some?
    ensures var d := ReactStep(c, cost, g).value;
      && d.next == c.next && d.deferred == c.deferred && d.pending == c.pending
      && d.prepared == c.prepared + [GeneratedText(g)]
      && d.clients.Keys == c.clients.Keys - (if g.ForcedLeave? then {g.clientId} else {})
  {
  }

  /** Each turn that goes on makes progress: it reads a line, or it takes up the deferred event,
      or it queues the closing evictions, or it takes a reaction off the queue; and it leaves a
      state the loop can resume from. */
  lemma TurnProgress(c: Club, config: Config, input: seq<string>)
    requires Resumable(c, input)
    ensures Turn(c, config, input).Next? ==>
      var d := Turn(c, config, input).club;
      && Resumable(d, input) && c.next <= d.next
      && (d.next == c.next ==>
            || Deferring(d) < Deferring(c)
            || (Deferring(d) == Deferring(c) && Undue(d) < Undue(c))
            || (Deferring(d) == Deferring(c) && Undue(d) <= Undue(c) && |d.pending| < |c.pending|))
  {
    if c.pending != [] {
      var rest := c.(pending := c.pending[1..]);
      var g := c.pending[0];
      if ReactStep(rest, config.costPerHour, g).Some? {
        ReactShape(rest, config.costPerHour, g);
        assert Evictees(c.pending) == (if g.ForcedLeave? then {g.clientId} else {}) + Evictees(rest.pending);
      }
    } else if c.deferred.Some? {
      var e := c.deferred.value;
      assert c.clients.Keys == {};
      assert c.clients == map[];
      if InputStep(c.(deferred := None), config, e).Some? {
        InputShape(c.(deferred := None), config, e);
      }
    } else {
      var d := c.(next := Advanced(input, c.next));
      var line := LineAt(input, c.next);
      if line == "" && c.clients != map[] {
        KickedAllDue(d, config.endTime);
        var k :| k in c.clients;
        assert k !in Evictees(c.pending);
      } else if line != "" && ParseLine(line).Ok? {
        var d' := d.(prepared := d.prepared + [line]);
        if InputStep(d', config, ParseLine(line).value).Some? {
          InputShape(d', config, ParseLine(line).value);
        }
      }
    }
  }

  // ---------------------------------------------------------------------------------------
  // Properties of a run

  /** processInputEvent fails exactly for an event out of time order, or for a present client
      asking for a table that does not exist, unless the event closes the day. */
  lemma InputFatal(c: Club, config: Config, e: InputEvent)
    ensures InputStep(c, config, e).None? <==>
      && !Closing(c, config, e)
      && (e.time < c.last || (e.action.ClientTakeTable? && e.clientId in c.clients && e.action.tableId >= |c.busy|))
  {
  }

  /** No table's revenue or occupied time is lower in after than in before. */
  predicate StatsGrow(before: seq<TableStatistic>, after: seq<TableStatistic>)
  {
    |after| == |before| &&
    forall t | 0 <= t < |before| :: before[t].revenue <= after[t].revenue && before[t].usedTime <= after[t].usedTime
  }

  lemma UnsetGrows(c: Club, cost: nat, id: string, now: nat)
    ensures StatsGrow(c.stats, UnsetStep(c, cost, id, now).stats)
  {
    var seat := if id in c.clients then c.clients[id] else NoTable;
    if seat != NoTable && Billable(c, seat, now) {
      ReleasedGrows(c.stats, c.busy, seat, now, cost);
    }
  }

  /** Every input event keeps or raises each table's revenue and occupied time. */
  lemma InputGrows(c: Club, config: Config, e: InputEvent)
    requires InputStep(c, config, e).Some?
    ensures StatsGrow(c.stats, InputStep(c, config, e).value.stats)
  {
    if !Closing(c, config, e) {
      var d := c.(last := e.time);
      match e.action
      case ClientTakeTable(table) =>
        if e.clientId in d.clients && table < |d.busy| && d.busy[table] == NoTable {
          UnsetGrows(d, config.costPerHour, e.clientId, e.time);
        }
      case ClientLeave =>
        if e.clientId in d.clients {
          var seat := d.clients[e.clientId];
          var d' := if seat != NoTable && d.queue != [] then Queued(d, SeatFromQueue(e.time, d.queue[0], seat)).(queue := d.queue[1..]) else d;
          UnsetGrows(d', config.costPerHour, e.clientId, e.time);
        }
      case _ =>
    }
  }

  /** Every reaction keeps or raises each table's revenue and occupied time. */
  lemma ReactGrows(c: Club, cost: nat, g: GeneratedEvent)
    requires ReactStep(c, cost, g).Some?
    ensures StatsGrow(c.stats, ReactStep(c, cost, g).value.stats)
  {
    var d := c.(prepared := c.prepared + [GeneratedText(g)]);
    if !g.ErrorEvent? {
      UnsetGrows(d, cost, g.clientId, g.time);
    }
  }

  lemma TurnGrows(c: Club, config: Config, input: seq<string>)
    requires Turn(c, config, input).Next?
    ensures StatsGrow(c.stats, Turn(c, config, input).club.stats)
  {
    if c.pending != [] {
      ReactGrows(c.(pending := c.pending[1..]), config.costPerHour, c.pending[0]);
    } else if c.deferred.Some? {
      InputGrows(c.(deferred := None), config, c.deferred.value);
    } else {
      var line := LineAt(input, c.next);
      var d := c.(next := Advanced(input, c.next));
      if line != "" {
        InputGrows(d.(prepared := d.prepared + [line]), config, ParseLine(line).value);
      }
    }
  }

  /** Over a whole run, no table's revenue or occupied time ever decreases. */
  lemma {:induction false} RunGrows(c: Club, config: Config, input: seq<string>)
    requires Resumable(c, input)
    ensures Run(c, config, input).outcome.Finished? ==> StatsGrow(c.stats, Run(c, config, input).club.stats)
    decreases |input| - c.next, Deferring(c), Undue(c), |c.pending|
  {
    var t := Turn(c, config, input);
    if t.Next? {
      TurnProgress(c, config, input);
      RunNext(c, config, input, t.club);
      TurnGrows(c, config, input);
      RunGrows(t.club, config, input);
    } else {
      RunHalt(c, config, input, t.outcome, t.club);
    }
  }

  /** The lines an entry log buffered. */
  function Texts(log: seq<Entry>): (lines: seq<string>)
    ensures |lines| == |log|
  {
    if log == [] then []
    else [match log[0] case Echo(line) => line case Reaction(g) => GeneratedText(g)] + Texts(log[1..])
  }

  /** The input lines an entry log echoed, in order. */
  function Echoes(log: seq<Entry>): seq<string>
  {
    if log == [] then []
    else (if log[0].Echo? then [log[0].line] else []) + Echoes(log[1..])
  }

  /** The lines that are not empty, in order. */
  function NonEmpty(lines: seq<string>): seq<string>
  {
    if lines == [] then [] else (if lines[0] != "" then [lines[0]] else []) + NonEmpty(lines[1..])
  }

  lemma {:induction false} TextsConcat(a: seq<Entry>, b: seq<Entry>)
    ensures Texts(a + b) == Texts(a) + Texts(b)
  {
    if a != [] {
      assert (a + b)[1..] == a[1..] + b;
      TextsConcat(a[1..], b);
    } else {
      assert a + b == b;
    }
  }

  lemma {:induction false} EchoesConcat(a: seq<Entry>, b: seq<Entry>)
    ensures Echoes(a + b) == Echoes(a) + Echoes(b)
  {
    if a != [] {
      assert (a + b)[1..] == a[1..] + b;
      EchoesConcat(a[1..], b);
    } else {
      assert a + b == b;
    }
  }

  lemma {:induction false} NonEmptyConcat(a: seq<string>, b: seq<string>)
    ensures NonEmpty(a + b) == NonEmpty(a) + NonEmpty(b)
  {
    if a != [] {
      assert (a + b)[1..] == a[1..] + b;
      NonEmptyConcat(a[1..], b);
    } else {
      assert a + b == b;
    }
  }

  /** A turn appends the lines of its log to the buffer, and its log echoes the non-empty
      lines it read; the turn that ends the loop normally buffers nothing, having read an
      empty line or nothing. */
  lemma TurnWrites(c: Club, config: Config, input: seq<string>)
    requires Resumable(c, input)
    ensures var t := Turn(c, config, input);
      && (t.Next? ==>
            && c.next <= t.club.next <= |input|
            && t.club.prepared == c.prepared + Texts(t.log)
            && Echoes(t.log) == NonEmpty(input[c.next..t.club.next]))
      && (t.Halt? && t.outcome.Finished? ==>
            && c.next <= t.club.next <= |input|
            && t.club.prepared == c.prepared
            && NonEmpty(input[c.next..t.club.next]) == [])
  {
    if c.pending != [] {
      var rest := c.(pending := c.pending[1..]);
      var g := c.pending[0];
      if ReactStep(rest, config.costPerHour, g).Some? {
        ReactShape(rest, config.costPerHour, g);
        assert Texts([Reaction(g)]) == [GeneratedText(g)];
      }
    } else if c.deferred.Some? {
      if InputStep(c.(deferred := None), config, c.deferred.value).Some? {
        InputShape(c.(deferred := None), config, c.deferred.value);
      }
    } else {
      var line := LineAt(input, c.next);
      var d := c.(next := Advanced(input, c.next));
      if c.next < |input| {
        assert input[c.next..d.next] == [line];
      }
      if line == "" {
        assert NonEmpty(input[c.next..d.next]) == [];
      } else if ParseLine(line).Ok? {
        var d' := d.(prepared := d.prepared + [line]);
        if InputStep(d', config, ParseLine(line).value).Some? {
          InputShape(d', config, ParseLine(line).value);
          assert Texts([Echo(line)]) == [line] && Echoes([Echo(line)]) == [line];
          assert NonEmpty([line]) == [line];
        }
      }
    }
  }

  /** Two stretches of a run, one after the other, buffer the lines of both logs. */
  lemma TextsCompose(p0: seq<string>, l1: seq<Entry>, l2: seq<Entry>)
    ensures p0 + Texts(l1) + Texts(l2) == p0 + Texts(l1 + l2)
  {
    TextsConcat(l1, l2);
  }

  /** Two stretches of a run, one after the other, echo the non-empty lines of both stretches
      of input. */
  lemma EchoesCompose(l1: seq<Entry>, l2: seq<Entry>, input: seq<string>, a: nat, b: nat, e: nat)
    requires a <= b <= e <= |input|
    requires Echoes(l1) == NonEmpty(input[a..b]) && Echoes(l2) == NonEmpty(input[b..e])
    ensures Echoes(l1 + l2) == NonEmpty(input[a..e])
  {
    EchoesConcat(l1, l2);
    assert input[a..e] == input[a..b] + input[b..e];
    NonEmptyConcat(input[a..b], input[b..e]);
  }

  /** A run that ends normally has buffered, after what was there, the lines of its log: the
      non-empty input lines it read, in order, interleaved with the lines of the reactions it
      carried out. */
  lemma {:induction false} RunWrites(c: Club, config: Config, input: seq<string>)
    requires Resumable(c, input)
    ensures var r := Run(c, config, input);
      r.outcome.Finished? ==>
        && c.next <= r.club.next <= |input|
        && r.club.prepared == c.prepared + Texts(r.log)
        && Echoes(r.log) == NonEmpty(input[c.next..r.club.next])
    decreases |input| - c.next, Deferring(c), Undue(c), |c.pending|
  {
    TurnProgress(c, config, input);
    RunUnfold(c, config, input);
    TurnWrites(c, config, input);
    var t := Turn(c, config, input);
    if t.Next? {
      var d := t.club;
      RunWrites(d, config, input);
      var r := Run(d, config, input);
      if r.outcome.Finished? {
        TextsCompose(c.prepared, t.log, r.log);
        EchoesCompose(t.log, r.log, input, c.next, d.next, r.club.next);
      }
    }
  }

  /** The turn that ends the loop normally read an empty line or nothing, and found no client
      present, no reaction queued and no event deferred. */
  lemma TurnStops(c: Club, config: Config, input: seq<string>)
    requires Resumable(c, input)
    requires Turn(c, config, input).Halt? && Turn(c, config, input).outcome.Finished?
    ensures var d := Turn(c, config, input).club;
      && d.clients == map[] && d.pending == [] && d.deferred.None?
      && (d.next == |input| || (0 < d.next <= |input| && input[d.next - 1] == ""))
  {
  }

  /** A run ends normally only at an empty line or at the end of the input, with no client
      present, no reaction queued and no event deferred. */
  lemma {:induction false} RunStops(c: Club, config: Config, input: seq<string>)
    requires Resumable(c, input)
    ensures var r := Run(c, config, input);
      r.outcome.Finished? ==>
        && r.club.clients == map[] && r.club.pending == [] && r.club.deferred.None?
        && (r.club.next == |input| || (0 < r.club.next <= |input| && input[r.club.next - 1] == ""))
    decreases |input| - c.next, Deferring(c), Undue(c), |c.pending|
  {
    var t := Turn(c, config, input);
    if t.Next? {
      TurnProgress(c, config, input);
      RunNext(c, config, input, t.club);
      RunStops(t.club, config, input);
    } else {
      RunHalt(c, config, input, t.outcome, t.club);
      if t.outcome.Finished? {
        TurnStops(c, config, input);
      }
    }
  }

  /** The program writes nothing unless it ends normally, and it ends normally only after a
      header it accepts. */
  lemma SimulateSilent(input: seq<string>)
    ensures !Simulate(input).outcome.Finished? ==> Simulate(input).output == []
    ensures Simulate(input).outcome.Finished? ==> ParseHeader(JoinLines(HeaderLines(input))).Ok?
  {
  }

  /** What the program writes when it ends normally after the header config: the opening
      time, the lines of the run from the opening state (which RunWrites describes), the
      closing time and one statistics line per table. */
  lemma SimulateOutput(input: seq<string>, config: Config)
    requires ParseHeader(JoinLines(HeaderLines(input))) == Ok(config)
    ensures var r := Run(Opening(config, |HeaderLines(input)|), config, input);
      Simulate(input).outcome.Finished? ==>
        && Simulate(input).output
             == [FormatTime(config.beginTime)] + Texts(r.log) + [FormatTime(config.endTime)] + StatLines(r.club.stats)
        && |r.club.stats| == config.tableCount
  {
    var opening := Opening(config, |HeaderLines(input)|);
    RunWrites(opening, config, input);
    RunGrows(opening, config, input);
  }
}
