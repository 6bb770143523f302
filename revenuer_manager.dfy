/** The club engine: reads the header and then one action per line, keeps the client-to-table
    map, the per-table busy-since times, the free-table count, the wait queue and the per-table
    statistics, queues the reactions it generates (11 forced leave, 12 seat from the queue,
    13 error) and drains them before the next input, closes the day at the closing time, and
    writes the buffered lines and the statistics only when the whole input went through. */
module RevenuerManagers {
  import opened Decimal
  import opened CharSources
  import opened BaseParsers
  import opened InputEvents
  import opened EventFormat
  import opened ManagerData
  import opened StringOrder
  import opened ClubState
  import opened ClubRun

  class RevenuerManager {
    /** The lines of the input stream, and how many have been read. */
    const input: seq<string>
    var nextLine: nat
    /** Lines buffered for the output, and the output stream itself. */
    var prepared: seq<string>
    var output: seq<string>

    var tableStatistics: seq<TableStatistic>
    var generatedEvents: seq<GeneratedEvent>
    var deferredEvent: Option<InputEvent>
    var clientTable: map<string, Seat>
    var tableTimeBusy: seq<int>
    var freeTableCount: nat
    var clientQueue: seq<string>
    var lastTimeEvent: int
    var beginTime: nat
    var endTime: nat
    var costPerHour: nat

    /** The table state: slots are free or hold a start no later than the last accepted time
        and the closing time, the free count counts free slots, seats are consistent, the wait
        queue is no longer than the number of tables, and while clients are present the last
        accepted time is not past closing. */
    ghost predicate Core()
      reads this`tableTimeBusy, this`tableStatistics, this`clientTable, this`freeTableCount, this`lastTimeEvent, this`endTime, this`clientQueue
    {
      && |tableTimeBusy| == |tableStatistics|
      && TablesOk(clientTable, tableTimeBusy, freeTableCount, lastTimeEvent, endTime)
      && |clientQueue| <= |tableTimeBusy|
    }

    /** A queued reaction can be carried out: a forced leave names a present client at the
        closing or last accepted time, a seat from the queue targets an existing free table at
        the last accepted time. */
    ghost predicate PendingOk(g: GeneratedEvent)
      reads this`clientTable, this`endTime, this`lastTimeEvent, this`tableTimeBusy
    {
      match g
      case ForcedLeave(t, id) => id in clientTable && (t == endTime || t == lastTimeEvent)
      case SeatFromQueue(t, _, table) =>
        t == lastTimeEvent && table < |tableTimeBusy| && tableTimeBusy[table] == NoTable
      case ErrorEvent(_, _) => true
    }

    /** The reaction queue holds one reaction of a handler, or a batch of forced leaves of
        distinct clients. */
    ghost predicate GeneratedOk()
      reads this`generatedEvents, this`clientTable, this`endTime, this`lastTimeEvent, this`tableTimeBusy
    {
      && (|generatedEvents| <= 1 || forall i | 0 <= i < |generatedEvents| :: generatedEvents[i].ForcedLeave?)
      && (forall i | 0 <= i < |generatedEvents| :: PendingOk(generatedEvents[i]))
      && (forall i, j | 0 <= i < j < |generatedEvents| && generatedEvents[i].ForcedLeave? && generatedEvents[j].ForcedLeave? ::
            generatedEvents[i].clientId != generatedEvents[j].clientId)
    }

    ghost predicate Valid()
      reads this`tableTimeBusy, this`tableStatistics, this`clientTable, this`freeTableCount, this`lastTimeEvent, this`endTime, this`clientQueue, this`generatedEvents
    {
      Core() && GeneratedOk()
    }

    /** Every present client is due to be forced out by a queued reaction. */
    ghost predicate AllKicked()
      reads this`clientTable, this`generatedEvents
    {
      clientTable.Keys <= Evictees(generatedEvents)
    }

    /** The header configuration and the output stream stay as they are. */
    twostate predicate Settled()
      reads this
    {
      beginTime == old(beginTime) && endTime == old(endTime) && costPerHour == old(costPerHour) && output == old(output)
    }

    /** Nor does the input position, the deferred event or the last accepted time change. */
    twostate predicate Steady()
      reads this
    {
      Settled() && nextLine == old(nextLine) && deferredEvent == old(deferredEvent) && lastTimeEvent == old(lastTimeEvent)
    }

    twostate predicate SameTables()
      reads this
    {
      tableStatistics == old(tableStatistics) && tableTimeBusy == old(tableTimeBusy) && freeTableCount == old(freeTableCount)
    }

    /** The fields the engine changes while it runs, as one value. */
    ghost function Snap(): Club
      reads this`clientTable, this`tableTimeBusy, this`freeTableCount, this`clientQueue, this`tableStatistics,
        this`generatedEvents, this`deferredEvent, this`lastTimeEvent, this`nextLine, this`prepared
    {
      Club(clientTable, tableTimeBusy, freeTableCount, clientQueue, tableStatistics, generatedEvents, deferredEvent,
        lastTimeEvent, nextLine, prepared)
    }

    /** The header the engine was configured with. */
    ghost function Header(): Config
      reads this`tableStatistics, this`beginTime, this`endTime, this`costPerHour
    {
      Config(|tableStatistics|, beginTime, endTime, costPerHour)
    }

    constructor (lines: seq<string>)
      ensures input == lines && nextLine == 0 && prepared == [] && output == []
      ensures lastTimeEvent == NoTable && clientTable == map[] && clientQueue == []
      ensures generatedEvents == [] && deferredEvent == None
    {
      input := lines;
      nextLine := 0;
      prepared := [];
      output := [];
      tableStatistics := [];
      generatedEvents := [];
      deferredEvent := None;
      clientTable := map[];
      tableTimeBusy := [];
      freeTableCount := 0;
      clientQueue := [];
      lastTimeEvent := NoTable;
      beginTime := 0;
      endTime := 0;
      costPerHour := 0;
    }

    /** std::getline: the next line and success, or failure and an empty line at the end. */
    method GetLine() returns (ok: bool, line: string)
      modifies this`nextLine
      ensures ok <==> old(nextLine) < |input|
      ensures ok ==> line == input[old(nextLine)] && nextLine == old(nextLine) + 1
      ensures !ok ==> line == "" && nextLine == old(nextLine)
    {
      if nextLine < |input| {
        line := input[nextLine];
        nextLine := nextLine + 1;
        return true, line;
      }
      return false, "";
    }

    /** The header text initialize() assembles from the first three lines read, each followed
        by '\n'; fewer when the input ends sooner. */
    method ReadHeader() returns (initData: string)
      requires nextLine == 0
      modifies this`nextLine
      ensures initData == JoinLines(HeaderLines(input)) && nextLine == |HeaderLines(input)|
    {
      initData := "";
      assert input[..nextLine] == [];
      var ok, line := GetLine();
      if ok {
        JoinSnoc(input[..nextLine - 1], line);
        assert input[..nextLine] == input[..nextLine - 1] + [line];
        initData := initData + line + "\n";
        ok, line := GetLine();
      }
      if ok {
        JoinSnoc(input[..nextLine - 1], line);
        assert input[..nextLine] == input[..nextLine - 1] + [line];
        initData := initData + line + "\n";
        ok, line := GetLine();
      }
      if ok {
        JoinSnoc(input[..nextLine - 1], line);
        assert input[..nextLine] == input[..nextLine - 1] + [line];
        initData := initData + line + "\n";
      }
      assert HeaderLines(input) == input[..nextLine];
      return initData;
    }

    /** initialize: read up to three header lines, parse them, size the tables and buffer the
        opening time. */
    method Initialize() returns (r: Result<()>)
      requires nextLine == 0 && prepared == [] && output == [] && lastTimeEvent == NoTable
      requires clientTable == map[] && clientQueue == [] && generatedEvents == [] && deferredEvent == None
      modifies this
      ensures r.Err? <==> ParseHeader(JoinLines(HeaderLines(input))).Err?
      ensures r.Err? ==> r.line == ParseHeader(JoinLines(HeaderLines(input))).line && output == []
      ensures r.Ok? ==>
        ParseHeader(JoinLines(HeaderLines(input))) == Ok(Config(|tableStatistics|, beginTime, endTime, costPerHour))
      ensures r.Ok? ==>
        var config := ParseHeader(JoinLines(HeaderLines(input))).value;
        && Valid() && AllKicked()
        && beginTime == config.beginTime && endTime == config.endTime && costPerHour == config.costPerHour
        && tableStatistics == seq(config.tableCount, _ => TableStatistic(0, 0))
        && tableTimeBusy == seq(config.tableCount, _ => NoTable) && freeTableCount == config.tableCount
        && clientTable == map[] && clientQueue == [] && generatedEvents == [] && deferredEvent == None
        && lastTimeEvent == NoTable && nextLine == |HeaderLines(input)|
        && prepared == [FormatTime(config.beginTime)] && output == []
    {
      var initData := ReadHeader();
      var data := ManagerData.Get(initData);
      if data.Err? {
        return Err(data.line);
      }
      Configure(data.value);
      return Ok(());
    }

    /** The second half of initialize: size the tables for the header read and buffer the
        opening time. */
    method Configure(config: Config)
      requires prepared == [] && lastTimeEvent == NoTable
      requires clientTable == map[] && clientQueue == [] && generatedEvents == [] && deferredEvent == None
      modifies this`freeTableCount, this`beginTime, this`endTime, this`costPerHour, this`tableStatistics,
        this`tableTimeBusy, this`prepared
      ensures Valid() && AllKicked()
      ensures beginTime == config.beginTime && endTime == config.endTime && costPerHour == config.costPerHour
      ensures tableStatistics == seq(config.tableCount, _ => TableStatistic(0, 0))
      ensures tableTimeBusy == seq(config.tableCount, _ => NoTable) && freeTableCount == config.tableCount
      ensures clientTable == map[] && clientQueue == [] && generatedEvents == [] && deferredEvent == None
      ensures prepared == [FormatTime(config.beginTime)]
    {
      FreshTables(config.tableCount, config.endTime);
      beginTime := config.beginTime;
      endTime := config.endTime;
      costPerHour := config.costPerHour;
      OpenTables(config.tableCount);
      prepared := prepared + [FormatTime(beginTime)];
    }

    /** The table half of initialize: count tables, all free, none with any takings. */
    method OpenTables(count: nat)
      modifies this`freeTableCount, this`tableStatistics, this`tableTimeBusy
      ensures Steady() && prepared == old(prepared) && clientQueue == old(clientQueue) && generatedEvents == old(generatedEvents) && clientTable == old(clientTable)
      ensures tableStatistics == seq(count, _ => TableStatistic(0, 0))
      ensures tableTimeBusy == seq(count, _ => NoTable) && freeTableCount == count
    {
      freeTableCount := count;
      tableStatistics := seq(count, _ => TableStatistic(0, 0));
      tableTimeBusy := seq(count, _ => NoTable);
    }

    /** finalize: the buffered lines, the closing time, and one statistics line per table. */
    method Finalize()
      requires output == []
      modifies this`output
      ensures output == prepared + [FormatTime(endTime)] + StatLines(tableStatistics)
      ensures prepared == old(prepared) && clientTable == old(clientTable) && generatedEvents == old(generatedEvents)
      ensures deferredEvent == old(deferredEvent) && clientQueue == old(clientQueue) && lastTimeEvent == old(lastTimeEvent) && SameTables()
    {
      var lines := RenderStats(tableStatistics);
      output := prepared + [FormatTime(endTime)] + lines;
    }

    /** unsetClientFromTable: bill and free the client's table, if it has one; the map entry
        keeps its stale table number until the caller rewrites or erases it. */
    method UnsetClientFromTable(now: nat, id: string)
      requires Core() && id in clientTable && (now == lastTimeEvent || now == endTime)
      modifies this`tableStatistics, this`tableTimeBusy, this`freeTableCount
      ensures Steady() && prepared == old(prepared) && clientQueue == old(clientQueue) && generatedEvents == old(generatedEvents) && clientTable == old(clientTable)
      ensures var seat := old(clientTable[id]);
        && tableStatistics == Released(old(tableStatistics), old(tableTimeBusy), seat, now, costPerHour)
        && tableTimeBusy == Vacate(old(tableTimeBusy), seat)
        && freeTableCount == old(freeTableCount) + (if seat == NoTable then 0 else 1)
      ensures freeTableCount == CountFree(tableTimeBusy)
      ensures Snap() == UnsetStep(old(Snap()), costPerHour, id, now)
    {
      ghost var before := Snap();
      var seat := clientTable[id];
      if seat == NoTable {
        return;
      }
      assert 0 <= tableTimeBusy[seat] <= now;
      assert Billable(before, seat, now);
      UnsetSeated(before, costPerHour, id, now);
      var passedTime: nat := now - tableTimeBusy[seat];
      var hoursPassed := BilledHours(passedTime);
      var stat := tableStatistics[seat];
      var earned := Fee(hoursPassed, costPerHour);
      ghost var billed := Released(tableStatistics, tableTimeBusy, seat, now, costPerHour);
      ghost var vacated := Vacate(tableTimeBusy, seat);
      CountFreeUpdate(tableTimeBusy, seat, NoTable);
      FreeTable(seat, TableStatistic(stat.revenue + earned, stat.usedTime + passedTime));
      assert tableStatistics == billed && tableTimeBusy == vacated;
      assert Snap() == before.(stats := billed, busy := vacated, free := before.free + 1);
    }

    /** The bookkeeping half of unsetClientFromTable: the table's statistic becomes stat, the
        table is free and one table more is free. */
    method FreeTable(seat: nat, stat: TableStatistic)
      requires seat < |tableTimeBusy| && seat < |tableStatistics|
      modifies this`tableStatistics, this`tableTimeBusy, this`freeTableCount
      ensures Steady() && prepared == old(prepared) && clientQueue == old(clientQueue) && generatedEvents == old(generatedEvents) && clientTable == old(clientTable)
      ensures tableStatistics == old(tableStatistics)[seat := stat] && tableTimeBusy == old(tableTimeBusy)[seat := NoTable]
      ensures freeTableCount == old(freeTableCount) + 1
    {
      tableStatistics := tableStatistics[seat := stat];
      freeTableCount := freeTableCount + 1;
      tableTimeBusy := tableTimeBusy[seat := NoTable];
    }

    /** setClientToTable: release the client's old table (billing it), then mark the new one
        busy from now and record the seat. */
    method SetClientToTable(now: nat, id: string, table: nat)
      requires Core() && id in clientTable && now == lastTimeEvent
      requires table < |tableTimeBusy| && tableTimeBusy[table] == NoTable
      modifies this`tableStatistics, this`tableTimeBusy, this`freeTableCount, this`clientTable
      ensures Steady() && prepared == old(prepared) && clientQueue == old(clientQueue) && generatedEvents == old(generatedEvents)
      ensures Core() && |tableStatistics| == old(|tableStatistics|)
      ensures var seat := old(clientTable[id]);
        && tableStatistics == Released(old(tableStatistics), old(tableTimeBusy), seat, now, costPerHour)
        && tableTimeBusy == Vacate(old(tableTimeBusy), seat)[table := now]
        && freeTableCount + 1 == old(freeTableCount) + (if seat == NoTable then 0 else 1)
      ensures clientTable == old(clientTable)[id := table]
      ensures Snap() == SeatStep(old(Snap()), costPerHour, id, now, table)
    {
      SeatKeepsTables(clientTable, tableTimeBusy, freeTableCount, now, endTime, id, table);
      if clientTable[id] != NoTable {
        UnsetClientFromTable(now, id);
      }
      Occupy(now, id, table);
    }

    /** The seating half of setClientToTable: the table is busy from now, the client holds it
        and one table fewer is free. */
    method Occupy(now: nat, id: string, table: nat)
      requires table < |tableTimeBusy| && freeTableCount >= 1
      modifies this`tableTimeBusy, this`freeTableCount, this`clientTable
      ensures Steady() && prepared == old(prepared) && clientQueue == old(clientQueue) && generatedEvents == old(generatedEvents) && tableStatistics == old(tableStatistics)
      ensures tableTimeBusy == old(tableTimeBusy)[table := now] && clientTable == old(clientTable)[id := table]
      ensures freeTableCount == old(freeTableCount) - 1
    {
      tableTimeBusy := tableTimeBusy[table := now];
      clientTable := clientTable[id := table];
      freeTableCount := freeTableCount - 1;
    }

    /** removeClient: release the client's table and erase the client. */
    method RemoveClient(now: nat, id: string)
      requires Core() && id in clientTable && (now == lastTimeEvent || now == endTime)
      modifies this`tableStatistics, this`tableTimeBusy, this`freeTableCount, this`clientTable
      ensures Steady() && prepared == old(prepared) && clientQueue == old(clientQueue) && generatedEvents == old(generatedEvents)
      ensures Core() && |tableStatistics| == old(|tableStatistics|)
      ensures var seat := old(clientTable[id]);
        && tableStatistics == Released(old(tableStatistics), old(tableTimeBusy), seat, now, costPerHour)
        && tableTimeBusy == Vacate(old(tableTimeBusy), seat)
        && freeTableCount == old(freeTableCount) + (if seat == NoTable then 0 else 1)
      ensures clientTable == old(clientTable) - {id}
      ensures Snap() == RemoveStep(old(Snap()), costPerHour, id, now)
    {
      RemoveKeepsTables(clientTable, tableTimeBusy, freeTableCount, lastTimeEvent, endTime, id);
      UnsetClientFromTable(now, id);
      clientTable := clientTable - {id};
    }

    /** kickOutLeftClients: queue a forced leave at closing time for every present client, in
        ascending name order (ids, which KickedInOrder shows is SortedKeys of the clients). */
    method KickOutLeftClients() returns (ghost ids: seq<string>)
      modifies this`generatedEvents
      ensures Steady() && prepared == old(prepared) && clientQueue == old(clientQueue) && clientTable == old(clientTable) && SameTables()
      ensures generatedEvents == old(generatedEvents) + Evictions(endTime, ids)
      ensures Ascending(ids) && forall x :: x in ids <==> x in clientTable
      ensures Snap() == KickStep(old(Snap()), endTime)
    {
      ghost var before := Snap();
      ids := QueueEvictions();
      KickedInOrder(before, endTime, ids);
    }

    /** The loop of kickOutLeftClients, over the clients in ascending name order. */
    method QueueEvictions() returns (ghost ids: seq<string>)
      modifies this`generatedEvents
      ensures Steady() && prepared == old(prepared) && clientQueue == old(clientQueue) && clientTable == old(clientTable) && SameTables()
      ensures generatedEvents == old(generatedEvents) + Evictions(endTime, ids)
      ensures Ascending(ids) && forall x :: x in ids <==> x in clientTable
    {
      var rest := clientTable.Keys;
      ids := [];
      while rest != {}
        invariant rest <= clientTable.Keys
        invariant forall x :: x in ids <==> x in clientTable && x !in rest
        invariant Ascending(ids)
        invariant forall i, o | 0 <= i < |ids| && o in rest :: Below(ids[i], o)
        invariant generatedEvents == old(generatedEvents) + Evictions(endTime, ids)
        decreases |rest|
      {
        LeastOfSet(rest);
        var k :| IsLeast(k, rest);
        EvictionsSnoc(endTime, ids, k);
        AppendAscending(ids, k);
        generatedEvents := generatedEvents + [ForcedLeave(endTime, k)];
        ids := ids + [k];
        rest := rest - {k};
      }
    }

    /** The forced leaves at closing time for the present clients in ascending order form a
        well-formed reaction queue that removes every present client. */
    lemma EvictionsOk(ids: seq<string>)
      requires Core() && Ascending(ids) && forall x :: x in ids <==> x in clientTable
      requires generatedEvents == Evictions(endTime, ids)
      ensures Valid() && AllKicked()
    {
      EvictionsShape(endTime, ids);
      EvicteesOfEvictions(endTime, ids);
    }

    method ProcessClientArrive(event: InputEvent)
      requires Valid() && generatedEvents == [] && event.time == lastTimeEvent && event.action.ClientArrive?
      modifies this`generatedEvents, this`clientTable
      ensures Steady() && prepared == old(prepared) && clientQueue == old(clientQueue) && SameTables()
      ensures Valid()
      ensures event.time < beginTime || event.time >= endTime ==>
        generatedEvents == [ErrorEvent(event.time, "NotOpenYet")] && clientTable == old(clientTable)
      ensures beginTime <= event.time < endTime && event.clientId in old(clientTable) ==>
        generatedEvents == [ErrorEvent(event.time, "YouShallNotPass")] && clientTable == old(clientTable)
      ensures beginTime <= event.time < endTime && event.clientId !in old(clientTable) ==>
        generatedEvents == [] && clientTable == old(clientTable)[event.clientId := NoTable]
      ensures Snap() == ArriveStep(old(Snap()), Header(), event)
    {
      if event.time < beginTime || event.time >= endTime {
        generatedEvents := generatedEvents + [ErrorEvent(event.time, "NotOpenYet")];
        return;
      }
      if event.clientId in clientTable {
        generatedEvents := generatedEvents + [ErrorEvent(event.time, "YouShallNotPass")];
        return;
      }
      ArriveKeepsTables(clientTable, tableTimeBusy, freeTableCount, lastTimeEvent, endTime, event.clientId);
      clientTable := clientTable[event.clientId := NoTable];
    }

    /** processClientTakeTable; ok is false for the fatal case of a table that does not
        exist. */
    method ProcessClientTakeTable(event: InputEvent) returns (ok: bool)
      requires Valid() && generatedEvents == [] && event.time == lastTimeEvent && event.action.ClientTakeTable?
      modifies this`generatedEvents, this`clientTable, this`tableStatistics, this`tableTimeBusy, this`freeTableCount
      ensures Steady() && prepared == old(prepared) && clientQueue == old(clientQueue)
      ensures ok <==> !(event.clientId in old(clientTable) && event.action.tableId >= |old(tableTimeBusy)|)
      ensures |tableStatistics| == old(|tableStatistics|)
      ensures ok ==> Valid()
      ensures !ok ==> generatedEvents == [] && clientTable == old(clientTable) && SameTables()
      ensures event.clientId !in old(clientTable) ==>
        generatedEvents == [ErrorEvent(event.time, "ClientUnknown")] && clientTable == old(clientTable) && SameTables()
      ensures ok && event.clientId in old(clientTable) && old(tableTimeBusy[event.action.tableId]) != NoTable ==>
        generatedEvents == [ErrorEvent(event.time, "PlaceIsBusy")] && clientTable == old(clientTable) && SameTables()
      ensures ok && event.clientId in old(clientTable) && old(tableTimeBusy[event.action.tableId]) == NoTable ==>
        var seat := old(clientTable[event.clientId]);
        && generatedEvents == []
        && clientTable == old(clientTable)[event.clientId := event.action.tableId]
        && tableStatistics == Released(old(tableStatistics), old(tableTimeBusy), seat, event.time, costPerHour)
        && tableTimeBusy == Vacate(old(tableTimeBusy), seat)[event.action.tableId := event.time]
      ensures TakeTableStep(old(Snap()), Header(), event) == if ok then Some(Snap()) else None
    {
      if event.clientId !in clientTable {
        generatedEvents := generatedEvents + [ErrorEvent(event.time, "ClientUnknown")];
        return true;
      }
      var table := event.action.tableId;
      if table >= |tableTimeBusy| {
        return false;
      }
      if tableTimeBusy[table] != NoTable {
        generatedEvents := generatedEvents + [ErrorEvent(event.time, "PlaceIsBusy")];
        return true;
      }
      SetClientToTable(event.time, event.clientId, table);
      return true;
    }

    method ProcessClientWait(event: InputEvent)
      requires Valid() && generatedEvents == [] && event.time == lastTimeEvent && event.action.ClientWait?
      modifies this`generatedEvents, this`clientQueue
      ensures Steady() && prepared == old(prepared) && clientTable == old(clientTable) && SameTables()
      ensures Valid()
      ensures event.clientId !in clientTable ==>
        generatedEvents == [ErrorEvent(event.time, "ClientUnknown")] && clientQueue == old(clientQueue)
      ensures event.clientId in clientTable && freeTableCount > 0 ==>
        generatedEvents == [ErrorEvent(event.time, "ICanWaitNoLonger!")] && clientQueue == old(clientQueue)
      ensures event.clientId in clientTable && freeTableCount == 0 && |old(clientQueue)| == |tableTimeBusy| ==>
        generatedEvents == [ForcedLeave(event.time, event.clientId)] && clientQueue == old(clientQueue)
      ensures event.clientId in clientTable && freeTableCount == 0 && |old(clientQueue)| < |tableTimeBusy| ==>
        generatedEvents == [] && clientQueue == old(clientQueue) + [event.clientId]
      ensures Snap() == WaitStep(old(Snap()), event)
    {
      if event.clientId !in clientTable {
        generatedEvents := generatedEvents + [ErrorEvent(event.time, "ClientUnknown")];
        return;
      }
      if freeTableCount > 0 {
        generatedEvents := generatedEvents + [ErrorEvent(event.time, "ICanWaitNoLonger!")];
        return;
      }
      if |clientQueue| == |tableTimeBusy| {
        generatedEvents := generatedEvents + [ForcedLeave(event.time, event.clientId)];
        return;
      }
      clientQueue := clientQueue + [event.clientId];
    }

    method ProcessClientLeave(event: InputEvent)
      requires Valid() && generatedEvents == [] && event.time == lastTimeEvent && event.action.ClientLeave?
      modifies this`generatedEvents, this`clientQueue, this`clientTable, this`tableStatistics, this`tableTimeBusy, this`freeTableCount
      ensures Steady() && prepared == old(prepared)
      ensures Valid() && |tableStatistics| == old(|tableStatistics|)
      ensures event.clientId !in old(clientTable) ==>
        && generatedEvents == [ErrorEvent(event.time, "ClientUnknown")]
        && clientTable == old(clientTable) && clientQueue == old(clientQueue) && SameTables()
      ensures event.clientId in old(clientTable) ==>
        var seat := old(clientTable[event.clientId]);
        && (seat != NoTable && old(clientQueue) != [] ==>
              generatedEvents == [SeatFromQueue(event.time, old(clientQueue)[0], seat)]
              && clientQueue == old(clientQueue)[1..])
        && (seat == NoTable || old(clientQueue) == [] ==>
              generatedEvents == [] && clientQueue == old(clientQueue))
        && clientTable == old(clientTable) - {event.clientId}
        && tableStatistics == Released(old(tableStatistics), old(tableTimeBusy), seat, event.time, costPerHour)
        && tableTimeBusy == Vacate(old(tableTimeBusy), seat)
      ensures Snap() == LeaveStep(old(Snap()), Header(), event)
    {
      if event.clientId !in clientTable {
        generatedEvents := generatedEvents + [ErrorEvent(event.time, "ClientUnknown")];
        return;
      }
      var seat := clientTable[event.clientId];
      if seat != NoTable && clientQueue != [] {
        generatedEvents := generatedEvents + [SeatFromQueue(event.time, clientQueue[0], seat)];
        clientQueue := clientQueue[1..];
      }
      RemoveClient(event.time, event.clientId);
    }

    /** processInputEvent: defer the event and close the day if it comes at or after closing
        while clients are present (a leave exactly at closing excepted); otherwise check the
        order of times and dispatch. ok is false for the fatal errors. */
    method ProcessInputEvent(event: InputEvent) returns (ok: bool)
      requires Valid() && generatedEvents == [] && deferredEvent == None
      modifies this`deferredEvent, this`lastTimeEvent, this`generatedEvents, this`clientQueue, this`clientTable,
        this`tableStatistics, this`tableTimeBusy, this`freeTableCount
      ensures Settled() && nextLine == old(nextLine) && prepared == old(prepared)
      ensures |tableStatistics| == old(|tableStatistics|)
      ensures ok ==> Valid() && (deferredEvent.Some? ==> deferredEvent == Some(event) && AllKicked())
      ensures var closing := !(event.time == endTime && event.action.ClientLeave?)
          && event.time >= endTime && old(clientTable) != map[];
        && (closing ==>
              && ok && deferredEvent == Some(event) && AllKicked() && Valid()
              && (forall i | 0 <= i < |generatedEvents| :: generatedEvents[i].ForcedLeave? && generatedEvents[i].time == endTime)
              && clientTable == old(clientTable) && lastTimeEvent == old(lastTimeEvent))
        && (!closing && event.time < old(lastTimeEvent) ==> !ok)
        && (!closing && event.time >= old(lastTimeEvent) ==>
              && lastTimeEvent == event.time && deferredEvent == None
              && (ok <==> !(event.action.ClientTakeTable? && event.clientId in old(clientTable)
                            && event.action.tableId >= |old(tableTimeBusy)|))
              && (ok ==> Valid()))
      ensures InputStep(old(Snap()), Header(), event) == if ok then Some(Snap()) else None
      ensures StatsGrow(old(tableStatistics), tableStatistics)
    {
      if event.time == endTime && event.action.ClientLeave? {
      } else if event.time >= endTime && clientTable != map[] {
        DeferAndClose(event);
        return true;
      }
      if event.time < lastTimeEvent {
        return false;
      }
      lastTimeEvent := event.time;
      ok := Dispatch(event);
      if ok {
        InputGrows(old(Snap()), Header(), event);
      }
    }

    /** The closing branch of processInputEvent: the event waits until every present client
        has been forced out at closing time. */
    method DeferAndClose(event: InputEvent)
      requires Valid() && generatedEvents == [] && deferredEvent == None
      modifies this`deferredEvent, this`generatedEvents
      ensures Settled() && nextLine == old(nextLine) && prepared == old(prepared) && lastTimeEvent == old(lastTimeEvent)
      ensures clientTable == old(clientTable) && clientQueue == old(clientQueue) && SameTables()
      ensures deferredEvent == Some(event) && AllKicked() && Valid()
      ensures forall i | 0 <= i < |generatedEvents| :: generatedEvents[i].ForcedLeave? && generatedEvents[i].time == endTime
      ensures Snap() == KickStep(old(Snap()).(deferred := Some(event)), endTime)
    {
      deferredEvent := Some(event);
      ghost var ids := KickOutLeftClients();
      EvictionsOk(ids);
      EvictionsAt(endTime, ids);
    }

    /** The switch of processInputEvent: hand an accepted action to its handler. ok is false
        only for a present client asking for a table that does not exist. */
    method Dispatch(event: InputEvent) returns (ok: bool)
      requires Valid() && generatedEvents == [] && event.time == lastTimeEvent
      modifies this`generatedEvents, this`clientQueue, this`clientTable, this`tableStatistics, this`tableTimeBusy, this`freeTableCount
      ensures Steady() && prepared == old(prepared) && |tableStatistics| == old(|tableStatistics|)
      ensures ok <==> !(event.action.ClientTakeTable? && event.clientId in old(clientTable)
                        && event.action.tableId >= |old(tableTimeBusy)|)
      ensures ok ==> Valid()
      ensures !ok ==> SameTables()
      ensures DispatchStep(old(Snap()), Header(), event) == if ok then Some(Snap()) else None
    {
      match event.action {
        case ClientArrive =>
          ProcessClientArrive(event);
        case ClientTakeTable(_) =>
          ok := ProcessClientTakeTable(event);
          return;
        case ClientWait =>
          ProcessClientWait(event);
        case ClientLeave =>
          ProcessClientLeave(event);
      }
      return true;
    }

    /** processGeneratedEvent: write the reaction's line and carry it out. */
    method ProcessGeneratedEvent(event: GeneratedEvent)
      requires Valid() && PendingOk(event)
      requires event.ForcedLeave? ==> event.clientId !in Evictees(generatedEvents)
      requires event.ForcedLeave? ==> forall i | 0 <= i < |generatedEvents| :: generatedEvents[i].ForcedLeave?
      requires event.SeatFromQueue? ==> generatedEvents == [] && event.clientId in clientTable
      modifies this`prepared, this`clientTable, this`tableStatistics, this`tableTimeBusy, this`freeTableCount
      ensures Steady() && clientQueue == old(clientQueue)
      ensures Valid() && |tableStatistics| == old(|tableStatistics|) && generatedEvents == old(generatedEvents)
      ensures prepared == old(prepared) + [GeneratedText(event)]
      ensures clientTable.Keys == old(clientTable).Keys - (if event.ForcedLeave? then {event.clientId} else {})
      ensures event.ForcedLeave? ==>
        var seat := old(clientTable[event.clientId]);
        && clientTable == old(clientTable) - {event.clientId}
        && tableStatistics == Released(old(tableStatistics), old(tableTimeBusy), seat, event.time, costPerHour)
        && tableTimeBusy == Vacate(old(tableTimeBusy), seat)
      ensures event.SeatFromQueue? ==>
        var seat := old(clientTable[event.clientId]);
        && clientTable == old(clientTable)[event.clientId := event.tableId]
        && tableStatistics == Released(old(tableStatistics), old(tableTimeBusy), seat, event.time, costPerHour)
        && tableTimeBusy == Vacate(old(tableTimeBusy), seat)[event.tableId := event.time]
      ensures event.ErrorEvent? ==> clientTable == old(clientTable) && SameTables()
      ensures ReactStep(old(Snap()), costPerHour, event) == Some(Snap())
    {
      Write(GeneratedText(event));
      match event {
        case ForcedLeave(t, id) =>
          RemoveClient(t, id);
          RemainingEvictionsOk(id);
        case SeatFromQueue(t, id, table) =>
          SetClientToTable(t, id, table);
        case ErrorEvent(_, _) =>
      }
    }

    /** Appends one line to the prepared output stream. */
    method Write(line: string)
      modifies this`prepared
      ensures Steady() && prepared == old(prepared) + [line]
      ensures clientQueue == old(clientQueue) && generatedEvents == old(generatedEvents) && clientTable == old(clientTable) && SameTables()
      ensures Snap() == old(Snap()).(prepared := old(prepared) + [line])
    {
      prepared := prepared + [line];
    }

    /** The state between two turns of the process() loop: a valid state, nothing written
        yet, the opening time buffered, and a deferred event only while every present client is
        queued to be forced out; the deferred event is the text of an input line. */
    ghost predicate Running()
      reads this`tableTimeBusy, this`tableStatistics, this`clientTable, this`freeTableCount, this`lastTimeEvent, this`endTime, this`clientQueue, this`generatedEvents,
        this`output, this`prepared, this`nextLine, this`deferredEvent
    {
      && Valid() && output == [] && prepared != [] && nextLine <= |input|
      && (deferredEvent.Some? ==> AllKicked())
    }

    /** The deferred event is the text of an input line. */
    ghost predicate DeferredQuoted()
      reads this`deferredEvent
    {
      deferredEvent.Some? && AllPlain(input) ==> EventText(deferredEvent.value) in input
    }

    /** process: initialize, run the event loop, and write the output only when the loop ended
        normally. */
    method Process() returns (result: Outcome)
      requires nextLine == 0 && prepared == [] && output == [] && lastTimeEvent == NoTable
      requires clientTable == map[] && clientQueue == [] && generatedEvents == [] && deferredEvent == None
      modifies this
      ensures !result.Finished? ==> output == []
      ensures ParseHeader(JoinLines(HeaderLines(input))).Err? ==>
        result == Failed(ParseHeader(JoinLines(HeaderLines(input))).line)
      ensures result.Finished? ==>
        && ParseHeader(JoinLines(HeaderLines(input))) == Ok(Config(|tableStatistics|, beginTime, endTime, costPerHour))
        && prepared != [] && prepared[0] == FormatTime(beginTime)
        && output == prepared + [FormatTime(endTime)] + StatLines(tableStatistics)
        && Valid() && clientTable == map[] && generatedEvents == [] && deferredEvent == None
      ensures result.Failed? && AllPlain(input) ==> result.message in input || (input == [] && result.message == "")
      ensures result == Simulate(input).outcome && output == Simulate(input).output
    {
      var init := Initialize();
      if init.Err? {
        HeaderErrorQuoted(input, init.line);
        return Failed(init.line);
      }
      ghost var header := Config(|tableStatistics|, beginTime, endTime, costPerHour);
      assert Snap() == Opening(header, |HeaderLines(input)|);
      result := ProcessEvents();
      assert Config(|tableStatistics|, beginTime, endTime, costPerHour) == header;
      if result.Finished? {
        Finalize();
      }
    }

    /** The loop of process(): carry out the oldest queued reaction, else the deferred event,
        else the next input line, until an empty line or the end of the input finds no client
        left. */
    method ProcessEvents() returns (result: Outcome)
      requires Running() && DeferredQuoted()
      modifies this`nextLine, this`prepared, this`deferredEvent, this`lastTimeEvent, this`generatedEvents,
        this`clientQueue, this`clientTable, this`tableStatistics, this`tableTimeBusy, this`freeTableCount
      ensures Settled()
      ensures old(prepared) <= prepared && |tableStatistics| == old(|tableStatistics|)
      ensures result.Finished? ==> Valid() && clientTable == map[] && generatedEvents == [] && deferredEvent == None
      ensures result.Failed? && AllPlain(input) ==> result.message in input
      ensures var r := Run(old(Snap()), old(Header()), input);
        result == r.outcome && (result.Finished? ==> Snap() == r.club)
      ensures result.Finished? ==> StatsGrow(old(tableStatistics), tableStatistics)
    {
      ghost var start := Snap();
      ghost var header := Header();
      while true
        invariant Running() && DeferredQuoted() && old(prepared) <= prepared && |tableStatistics| == old(|tableStatistics|)
        invariant Header() == header && Resumable(Snap(), input)
        invariant Run(Snap(), header, input).outcome == Run(start, header, input).outcome
        invariant Run(Snap(), header, input).club == Run(start, header, input).club
        decreases |input| - nextLine, Deferring(Snap()), Undue(Snap()), |generatedEvents|
      {
        ghost var before := Snap();
        TurnProgress(before, header, input);
        var halt := TakeTurn();
        if halt.Some? {
          RunHalt(before, header, input, halt.value, Turn(before, header, input).club);
          if halt.value.Finished? {
            break;
          }
          return halt.value;
        }
        RunNext(before, header, input, Snap());
      }
      RunGrows(start, header, input);
      return Finished;
    }

    /** One turn of the loop: the oldest queued reaction, else the deferred event, else the
        next input line. None means the loop goes on; otherwise the loop ends with that
        outcome. */
    method TakeTurn() returns (halt: Option<Outcome>)
      requires Running() && DeferredQuoted()
      modifies this`nextLine, this`prepared, this`deferredEvent, this`lastTimeEvent, this`generatedEvents,
        this`clientQueue, this`clientTable, this`tableStatistics, this`tableTimeBusy, this`freeTableCount
      ensures Settled()
      ensures old(prepared) <= prepared && |tableStatistics| == old(|tableStatistics|)
      ensures halt.None? ==> Running() && DeferredQuoted()
      ensures halt == Some(Finished) ==> Valid() && clientTable == map[] && generatedEvents == [] && deferredEvent == None
      ensures halt.Some? && halt.value.Failed? && AllPlain(input) ==> halt.value.message in input
      ensures var t := Turn(old(Snap()), Header(), input);
        if halt.None? then t.Next? && t.club == Snap()
        else t.Halt? && t.outcome == halt.value && (t.outcome.Finished? ==> t.club == Snap())
    {
      if generatedEvents != [] {
        var defined := ProcessFrontReaction();
        return if defined then None else Some(Undefined);
      }
      if deferredEvent.Some? {
        var failure := ProcessDeferredEvent();
        return if failure.None? then None else Some(Failed(failure.value));
      }
      var step := ProcessNextLine();
      match step {
        case Continue => return None;
        case Stop => return Some(Finished);
        case Fail(message) => return Some(Failed(message));
      }
    }

    /** The first branch of the loop: the oldest reaction is carried out and taken off the
        queue. A seat from the queue whose client is gone makes the source dereference an
        invalidated iterator; that is reported as not defined. */
    method ProcessFrontReaction() returns (defined: bool)
      requires Running() && generatedEvents != []
      modifies this`prepared, this`generatedEvents, this`clientTable, this`tableStatistics, this`tableTimeBusy, this`freeTableCount
      ensures Steady() && clientQueue == old(clientQueue)
      ensures defined <==> !(old(generatedEvents[0]).SeatFromQueue? && old(generatedEvents[0]).clientId !in old(clientTable))
      ensures defined ==>
        && Running() && prepared == old(prepared) + [GeneratedText(old(generatedEvents[0]))]
        && generatedEvents == old(generatedEvents)[1..] && (old(AllKicked()) ==> AllKicked())
      ensures old(prepared) <= prepared && |tableStatistics| == old(|tableStatistics|)
      ensures Turn(old(Snap()), Header(), input)
        == if defined then Next(Snap(), [Reaction(old(generatedEvents[0]))]) else Halt(Undefined, old(Snap()))
    {
      var event := generatedEvents[0];
      if event.SeatFromQueue? && event.clientId !in clientTable {
        return false;
      }
      PopReaction();
      ProcessGeneratedEvent(event);
      return true;
    }

    /** The second branch of the loop: the deferred event is taken and processed; a fatal error
        quotes its text. */
    method ProcessDeferredEvent() returns (failure: Option<string>)
      requires Running() && DeferredQuoted() && generatedEvents == [] && deferredEvent.Some?
      modifies this`deferredEvent, this`lastTimeEvent, this`generatedEvents, this`clientQueue, this`clientTable,
        this`tableStatistics, this`tableTimeBusy, this`freeTableCount
      ensures Settled() && nextLine == old(nextLine) && prepared == old(prepared)
      ensures failure.None? ==> Running() && deferredEvent.None?
      ensures failure.Some? ==> failure.value == EventText(old(deferredEvent).value)
      ensures failure.Some? && AllPlain(input) ==> failure.value in input
      ensures |tableStatistics| == old(|tableStatistics|)
      ensures Turn(old(Snap()), Header(), input)
        == if failure.None? then Next(Snap(), []) else Halt(Failed(failure.value), old(Snap()))
    {
      var event := deferredEvent.value;
      deferredEvent := None;
      assert clientTable == map[];
      var ok := ProcessInputEvent(event);
      if !ok {
        return Some(EventText(event));
      }
      return None;
    }

    /** The third branch of the loop: read a line; an empty one closes the day while clients
        are present and otherwise ends the loop; any other line is buffered, parsed and
        processed, a parse error or a fatal error quoting the line. */
    method ProcessNextLine() returns (step: LineStep)
      requires Running() && generatedEvents == [] && deferredEvent.None?
      modifies this`nextLine, this`prepared, this`deferredEvent, this`lastTimeEvent, this`generatedEvents,
        this`clientQueue, this`clientTable, this`tableStatistics, this`tableTimeBusy, this`freeTableCount
      ensures Settled()
      ensures step.Continue? ==>
        && Running() && DeferredQuoted()
        && (nextLine > old(nextLine)
            || (nextLine == old(nextLine) && deferredEvent.None? && AllKicked() && clientTable == old(clientTable) && clientTable != map[]))
      ensures step.Stop? ==> Valid() && clientTable == map[] && generatedEvents == [] && deferredEvent == None
      ensures step.Fail? && AllPlain(input) ==> step.message in input
      ensures old(prepared) <= prepared && |tableStatistics| == old(|tableStatistics|)
      ensures step.Stop? <==> (old(nextLine) == |input| || input[old(nextLine)] == "") && old(clientTable) == map[]
      ensures var t := Turn(old(Snap()), Header(), input);
        match step
        case Continue => t.Next? && t.club == Snap()
        case Stop => t == Halt(Finished, Snap())
        case Fail(message) => t == Halt(Failed(message), old(Snap()))
    {
      ghost var before := Snap();
      var _, line := GetLine();
      if line == "" {
        BlankTurn(before, Header(), input);
        ghost var read := Snap();
        assert read == before.(next := Advanced(input, before.next));
        if clientTable != map[] {
          ghost var ids := KickOutLeftClients();
          EvictionsOk(ids);
          assert Snap() == KickStep(read, endTime);
          return Continue;
        }
        return Stop;
      }
      assert AllPlain(input) ==> line in input && PlainLine(line);
      ghost var config := Header();
      ghost var read := Snap().(prepared := prepared + [line]);
      assert read == before.(next := before.next + 1, prepared := before.prepared + [line]);
      ReadTurn(before, config, input);
      step := ProcessLine(line);
      assert Header() == config;
    }

    /** An input line that is not empty: buffered, parsed and processed; a parse error quotes
        the line's text, a fatal error the line itself. */
    method ProcessLine(line: string) returns (step: LineStep)
      requires Running() && generatedEvents == [] && deferredEvent.None? && line != ""
      requires AllPlain(input) ==> line in input && PlainLine(line)
      modifies this`prepared, this`deferredEvent, this`lastTimeEvent, this`generatedEvents,
        this`clientQueue, this`clientTable, this`tableStatistics, this`tableTimeBusy, this`freeTableCount
      ensures Settled() && nextLine == old(nextLine)
      ensures step.Continue? ==> Running() && DeferredQuoted()
      ensures step.Fail? && AllPlain(input) ==> step.message == line
      ensures !step.Stop? && prepared == old(prepared) + [line] && |tableStatistics| == old(|tableStatistics|)
      ensures ParseLine(line).Err? ==> step == Fail(ParseLine(line).line)
      ensures ParseLine(line).Ok? ==>
        var r := InputStep(old(Snap()).(prepared := old(prepared) + [line]), Header(), ParseLine(line).value);
        && (step.Fail? <==> r.None?)
        && (step.Fail? ==> step == Fail(line))
        && (r.Some? ==> Snap() == r.value)
    {
      Write(line);
      var parsed := InputEvents.Get(line);
      if parsed.Err? {
        if AllPlain(input) {
          RejectedLineIsQuoted(line);
        }
        return Fail(parsed.line);
      }
      var ok := ProcessInputEvent(parsed.value);
      if !ok {
        return Fail(line);
      }
      if deferredEvent.Some? && AllPlain(input) {
        EventTextOfParse(line);
      }
      return Continue;
    }

    /** Taking the oldest reaction off the queue leaves a queue that can still be carried out
        once that reaction is; the reaction meets what processGeneratedEvent needs. */
    method PopReaction()
      requires Valid() && generatedEvents != []
      requires generatedEvents[0].SeatFromQueue? ==> generatedEvents[0].clientId in clientTable
      modifies this`generatedEvents
      ensures Steady() && prepared == old(prepared) && clientQueue == old(clientQueue) && clientTable == old(clientTable) && SameTables()
      ensures generatedEvents == old(generatedEvents)[1..]
      ensures Snap() == old(Snap()).(pending := old(generatedEvents)[1..])
      ensures var event := old(generatedEvents)[0];
        && Valid() && PendingOk(event)
        && (event.ForcedLeave? ==> event.clientId !in Evictees(generatedEvents))
        && (event.ForcedLeave? ==> forall i | 0 <= i < |generatedEvents| :: generatedEvents[i].ForcedLeave?)
        && (event.SeatFromQueue? ==> generatedEvents == [] && event.clientId in clientTable)
        && Evictees(old(generatedEvents)) == Evictees(generatedEvents) + (if event.ForcedLeave? then {event.clientId} else {})
    {
      var event := generatedEvents[0];
      EvicteesMembers(generatedEvents[1..]);
      if event.ForcedLeave? {
        forall i | 1 <= i < |generatedEvents| && generatedEvents[i].ForcedLeave?
          ensures generatedEvents[i].clientId != event.clientId
        {
        }
      }
      generatedEvents := generatedEvents[1..];
    }

    /** Once a client that no queued forced leave names is gone, the queued reactions can still
        be carried out. */
    lemma RemainingEvictionsOk(id: string)
      requires Core() && id !in clientTable
      requires forall i | 0 <= i < |generatedEvents| :: generatedEvents[i].ForcedLeave?
      requires forall i | 0 <= i < |generatedEvents| ::
        (generatedEvents[i].clientId == id || generatedEvents[i].clientId in clientTable)
        && (generatedEvents[i].time == endTime || generatedEvents[i].time == lastTimeEvent)
      requires id !in Evictees(generatedEvents)
      requires forall i, j | 0 <= i < j < |generatedEvents| ::
        generatedEvents[i].clientId != generatedEvents[j].clientId
      ensures GeneratedOk()
    {
      EvicteesMembers(generatedEvents);
      forall i | 0 <= i < |generatedEvents|
        ensures generatedEvents[i].clientId in clientTable
      {
        assert generatedEvents[i].clientId in Evictees(generatedEvents);
      }
    }
  }

  /** The loop of finalize(): one statistics line per table, in table order. */
  method RenderStats(stats: seq<TableStatistic>) returns (lines: seq<string>)
    ensures lines == StatLines(stats)
  {
    lines := [];
    for i := 0 to |stats|
      invariant lines == StatLines(stats[..i])
    {
      StatLinesSnoc(stats, i);
      lines := lines + [StatLine(i, stats[i])];
    }
    assert stats[..|stats|] == stats;
  }

  /** The line quoted by a header error is one of the input lines, or empty for an empty
      input. */
  lemma HeaderErrorQuoted(input: seq<string>, line: string)
    requires ParseHeader(JoinLines(HeaderLines(input))).Err?
    requires line == ParseHeader(JoinLines(HeaderLines(input))).line
    ensures AllPlain(input) ==> line in input || (input == [] && line == "")
  {
    var lines := HeaderLines(input);
    var data := JoinLines(lines);
    if AllPlain(input) {
      var k := HeaderAt(data).at;
      assert line == ErrorLine(data, k);
      if lines == [] {
        assert data == "";
      } else {
        assert |data| > 0;
        LineTextOfJoin(lines, ScanFrom(SourcePos(data, k)));
      }
    }
  }

  /** Appending a line to the lines read appends it and its newline to the text. */
  lemma {:induction false} JoinSnoc(lines: seq<string>, line: string)
    ensures JoinLines(lines + [line]) == JoinLines(lines) + line + "\n"
    decreases |lines|
  {
    if lines != [] {
      assert (lines + [line])[1..] == lines[1..] + [line];
      JoinSnoc(lines[1..], line);
    }
  }
}
