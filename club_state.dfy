/** The club's table state as values: the reactions the engine generates, the billing of a
    stay, the seating invariant, the closing evictions, and the output lines. */
module ClubState {
  import opened Decimal
  import opened CharSources
  import opened EventFormat
  import opened StringOrder
  datatype Option<T> = None | Some(value: T)

  /** The marker for a free table in the busy-since list and for a client without a table. */
  const NoTable: int := -1

  /** What the client-to-table map holds: a table index, or NoTable. */
  type Seat = s: int | NoTable <= s

  datatype TableStatistic = TableStatistic(revenue: nat, usedTime: nat)

  /** A generated reaction; the source points at the client through a map iterator, the model
      names the client. */
  datatype GeneratedEvent =
    | ForcedLeave(time: nat, clientId: string)
    | SeatFromQueue(time: nat, clientId: string, tableId: nat)
    | ErrorEvent(time: nat, message: string)

  /** How process() ends: normally, with a std::runtime_error carrying a line of text, or by
      dereferencing a map iterator that no longer points at a client (undefined behaviour). */
  datatype Outcome = Finished | Failed(message: string) | Undefined

  /** How one input line ends a turn of the loop: go on, stop the loop, or a fatal error. */
  datatype LineStep = Continue | Stop | Fail(message: string)

  /** Hours billed for a stay: started hours, so the least whole number of hours covering the
      stay. */
  function BilledHours(minutes: nat): (hours: nat)
    ensures hours * 60 >= minutes
    ensures hours == 0 || (hours - 1) * 60 < minutes
  {
    minutes / 60 + (if minutes % 60 == 0 then 0 else 1)
  }

  /** The number of free slots in the busy-since list. */
  function CountFree(busy: seq<int>): (n: nat)
    ensures n <= |busy|
  {
    if busy == [] then 0 else CountFree(busy[..|busy| - 1]) + (if busy[|busy| - 1] == NoTable then 1 else 0)
  }

  /** Changing one slot changes the free count by what that slot was and became. */
  lemma {:induction false} CountFreeUpdate(busy: seq<int>, t: nat, v: int)
    requires t < |busy|
    ensures CountFree(busy[t := v]) + (if busy[t] == NoTable then 1 else 0)
      == CountFree(busy) + (if v == NoTable then 1 else 0)
    decreases |busy|
  {
    var n := |busy|;
    var after := busy[t := v];
    if t == n - 1 {
      assert after[..n - 1] == busy[..n - 1];
    } else {
      assert after[..n - 1] == busy[..n - 1][t := v];
      CountFreeUpdate(busy[..n - 1], t, v);
    }
  }

  /** Every slot free: the count is the number of tables. */
  lemma {:induction false} CountFreeAll(n: nat)
    ensures CountFree(seq(n, _ => NoTable)) == n
  {
    if n > 0 {
      assert seq(n, _ => NoTable)[..n - 1] == seq(n - 1, _ => NoTable);
      CountFreeAll(n - 1);
    }
  }

  /** The slots after the table at seat (if any) is released. */
  function Vacate(busy: seq<int>, seat: int): seq<int>
    requires seat == NoTable || 0 <= seat < |busy|
  {
    if seat == NoTable then busy else busy[seat := NoTable]
  }

  /** What hours started hours of a stay cost at the hourly rate. */
  function Fee(hours: nat, rate: nat): nat
  {
    hours * rate
  }

  /** unsetClientFromTable's billing: the table at seat earns the started hours of the stay
      times the rate and adds the minutes of the stay. */
  function Released(stats: seq<TableStatistic>, busy: seq<int>, seat: int, now: nat, cost: nat): (after: seq<TableStatistic>)
    requires |stats| == |busy|
    requires seat == NoTable || (0 <= seat < |busy| && 0 <= busy[seat] <= now)
    ensures |after| == |stats|
  {
    if seat == NoTable then stats
    else
      var passed := now - busy[seat];
      stats[seat := TableStatistic(stats[seat].revenue + Fee(BilledHours(passed), cost), stats[seat].usedTime + passed)]
  }

  /** The seating invariant: a seated client's table exists and is busy, no two clients share
      a table, and every busy table is held by some client. */
  predicate SeatsOk(clients: map<string, int>, busy: seq<int>)
  {
    && (forall c | c in clients :: clients[c] == NoTable || (0 <= clients[c] < |busy| && busy[clients[c]] != NoTable))
    && (forall c, d | c in clients && d in clients && c != d && clients[c] != NoTable :: clients[c] != clients[d])
    && (forall t | 0 <= t < |busy| && busy[t] != NoTable :: t in clients.Values)
  }

  /** Seating a client at a free table (releasing the table it held) keeps the seating
      invariant. */
  lemma SeatKeepsSeats(clients: map<string, int>, busy: seq<int>, id: string, table: nat, now: nat)
    requires SeatsOk(clients, busy) && id in clients && table < |busy| && busy[table] == NoTable
    ensures SeatsOk(clients[id := table], Vacate(busy, clients[id])[table := now])
  {
    var old_ := clients[id];
    var busy' := Vacate(busy, old_)[table := now];
    var clients' := clients[id := table];
    forall t | 0 <= t < |busy'| && busy'[t] != NoTable
      ensures t in clients'.Values
    {
      if t == table {
        assert clients'[id] == t;
      } else {
        assert busy[t] != NoTable && t != old_;
        var c :| c in clients && clients[c] == t;
        assert c != id && clients'[c] == t;
      }
    }
  }

  /** A new client without a table keeps the seating invariant. */
  lemma ArriveKeepsSeats(clients: map<string, int>, busy: seq<int>, id: string)
    requires SeatsOk(clients, busy) && id !in clients
    ensures SeatsOk(clients[id := NoTable], busy)
  {
    var clients' := clients[id := NoTable];
    forall t | 0 <= t < |busy| && busy[t] != NoTable
      ensures t in clients'.Values
    {
      var c :| c in clients && clients[c] == t;
      assert clients'[c] == t;
    }
  }

  /** Removing a client and releasing its table keeps the seating invariant. */
  lemma RemoveKeepsSeats(clients: map<string, int>, busy: seq<int>, id: string)
    requires SeatsOk(clients, busy) && id in clients
    ensures SeatsOk(clients - {id}, Vacate(busy, clients[id]))
  {
    var old_ := clients[id];
    var busy' := Vacate(busy, old_);
    var clients' := clients - {id};
    forall t | 0 <= t < |busy'| && busy'[t] != NoTable
      ensures t in clients'.Values
    {
      assert busy[t] != NoTable && t != old_;
      var c :| c in clients && clients[c] == t;
      assert c != id && clients'[c] == t;
    }
  }

  /** The table state: slots are free or hold a start no later than the last accepted time
      and the closing time, the free count counts free slots, seats are consistent, and while
      clients are present the last accepted time is not past closing. */
  ghost predicate TablesOk(clients: map<string, int>, busy: seq<int>, free: nat, last: int, end: nat)
  {
    && (forall t | 0 <= t < |busy| :: NoTable <= busy[t] && busy[t] <= last && busy[t] <= end)
    && free == CountFree(busy)
    && SeatsOk(clients, busy)
    && (clients != map[] ==> last <= end)
  }

  /** All tables free and no client: the table state of an opening club. */
  lemma FreshTables(n: nat, end: nat)
    ensures TablesOk(map[], seq(n, _ => NoTable), n, NoTable, end)
  {
    CountFreeAll(n);
  }

  /** A new client without a table keeps the table state. */
  lemma ArriveKeepsTables(clients: map<string, int>, busy: seq<int>, free: nat, last: int, end: nat, id: string)
    requires TablesOk(clients, busy, free, last, end) && id !in clients && last <= end
    ensures TablesOk(clients[id := NoTable], busy, free, last, end)
  {
    ArriveKeepsSeats(clients, busy, id);
  }

  /** Seating a present client at a free table from the last accepted time keeps the table
      state. */
  lemma SeatKeepsTables(clients: map<string, int>, busy: seq<int>, free: nat, last: nat, end: nat, id: string, table: nat)
    requires TablesOk(clients, busy, free, last, end) && id in clients
    requires table < |busy| && busy[table] == NoTable
    ensures var seat := clients[id];
      var vacated := Vacate(busy, seat);
      && free + (if seat == NoTable then 0 else 1) == CountFree(vacated)
      && CountFree(vacated) >= 1
      && TablesOk(clients[id := table], vacated[table := last], CountFree(vacated) - 1, last, end)
  {
    var seat := clients[id];
    var vacated := Vacate(busy, seat);
    SeatKeepsSeats(clients, busy, id, table, last);
    if seat != NoTable {
      CountFreeUpdate(busy, seat, NoTable);
    }
    CountFreeUpdate(vacated, table, last);
  }

  /** Removing a present client at the last accepted or the closing time keeps the table
      state. */
  lemma RemoveKeepsTables(clients: map<string, int>, busy: seq<int>, free: nat, last: int, end: nat, id: string)
    requires TablesOk(clients, busy, free, last, end) && id in clients
    ensures var seat := clients[id];
      && free + (if seat == NoTable then 0 else 1) == CountFree(Vacate(busy, seat))
      && TablesOk(clients - {id}, Vacate(busy, seat), CountFree(Vacate(busy, seat)), last, end)
  {
    RemoveKeepsSeats(clients, busy, id);
    if clients[id] != NoTable {
      CountFreeUpdate(busy, clients[id], NoTable);
    }
  }

  /** Billing a stay never lowers a table's revenue or occupied time. */
  lemma ReleasedGrows(stats: seq<TableStatistic>, busy: seq<int>, seat: int, now: nat, cost: nat)
    requires |stats| == |busy|
    requires seat == NoTable || (0 <= seat < |busy| && 0 <= busy[seat] <= now)
    ensures var after := Released(stats, busy, seat, now, cost);
      |after| == |stats| && forall t | 0 <= t < |stats| ::
        stats[t].revenue <= after[t].revenue && stats[t].usedTime <= after[t].usedTime
  {
  }

  /** The text of a generated reaction. */
  function GeneratedText(g: GeneratedEvent): string
  {
    match g
    case ForcedLeave(t, id) => FormatTime(t) + " 11 " + id
    case SeatFromQueue(t, id, table) => FormatTime(t) + " 12 " + id + " " + NatText(table + 1)
    case ErrorEvent(t, message) => FormatTime(t) + " 13 " + message
  }

  /** One statistics line: table number, revenue, occupied time. */
  function StatLine(i: nat, s: TableStatistic): string
  {
    NatText(i + 1) + " " + NatText(s.revenue) + " " + FormatTime(s.usedTime)
  }

  /** The statistics lines of the tables, in table order. */
  function StatLines(stats: seq<TableStatistic>): (lines: seq<string>)
    ensures |lines| == |stats|
  {
    if stats == [] then [] else StatLines(stats[..|stats| - 1]) + [StatLine(|stats| - 1, stats[|stats| - 1])]
  }

  lemma StatLinesSnoc(stats: seq<TableStatistic>, i: nat)
    requires i < |stats|
    ensures StatLines(stats[..i + 1]) == StatLines(stats[..i]) + [StatLine(i, stats[i])]
  {
    assert stats[..i + 1][..i] == stats[..i];
  }

  /** Forced leaves at time t for the clients ids, in that order. */
  function Evictions(t: nat, ids: seq<string>): (gs: seq<GeneratedEvent>)
    ensures |gs| == |ids|
  {
    if ids == [] then [] else [ForcedLeave(t, ids[0])] + Evictions(t, ids[1..])
  }

  /** Position by position, the forced leave of the client at that position. */
  lemma {:induction false} EvictionsAt(t: nat, ids: seq<string>)
    ensures forall i | 0 <= i < |ids| :: Evictions(t, ids)[i] == ForcedLeave(t, ids[i])
  {
    if ids != [] {
      EvictionsAt(t, ids[1..]);
    }
  }

  lemma {:induction false} EvictionsSnoc(t: nat, ids: seq<string>, k: string)
    ensures Evictions(t, ids + [k]) == Evictions(t, ids) + [ForcedLeave(t, k)]
  {
    if ids != [] {
      assert (ids + [k])[1..] == ids[1..] + [k];
      EvictionsSnoc(t, ids[1..], k);
    }
  }

  /** The forced leaves for ascending keys name each key once. */
  lemma EvictionsShape(t: nat, keys: seq<string>)
    requires Ascending(keys)
    ensures forall i | 0 <= i < |keys| :: Evictions(t, keys)[i] == ForcedLeave(t, keys[i])
    ensures forall i, j | 0 <= i < j < |keys| :: keys[i] != keys[j]
  {
    EvictionsAt(t, keys);
    forall i, j | 0 <= i < j < |keys|
      ensures keys[i] != keys[j]
    {
      if keys[i] == keys[j] {
        BelowIrreflexive(keys[i]);
      }
    }
  }

  /** The clients that the queued forced leaves will remove. */
  function Evictees(gs: seq<GeneratedEvent>): set<string>
  {
    if gs == [] then {}
    else (if gs[0].ForcedLeave? then {gs[0].clientId} else {}) + Evictees(gs[1..])
  }

  /** A queued forced leave names one of the clients it will remove, and only those. */
  lemma {:induction false} EvicteesMembers(gs: seq<GeneratedEvent>)
    ensures forall x :: x in Evictees(gs) <==> exists i | 0 <= i < |gs| :: gs[i].ForcedLeave? && gs[i].clientId == x
  {
    if gs != [] {
      EvicteesMembers(gs[1..]);
      forall x | x in Evictees(gs[1..])
        ensures exists i | 0 <= i < |gs| :: gs[i].ForcedLeave? && gs[i].clientId == x
      {
        var j :| 0 <= j < |gs[1..]| && gs[1..][j].ForcedLeave? && gs[1..][j].clientId == x;
        assert gs[j + 1] == gs[1..][j];
      }
      forall x, i | 0 <= i < |gs| && gs[i].ForcedLeave? && gs[i].clientId == x
        ensures x in Evictees(gs)
      {
        if i > 0 {
          assert gs[1..][i - 1] == gs[i];
        }
      }
    }
  }

  /** The clients removed by the forced leaves for ids are the clients ids. */
  lemma {:induction false} EvicteesOfEvictions(t: nat, ids: seq<string>)
    ensures Evictees(Evictions(t, ids)) == set x | x in ids
  {
    if ids != [] {
      EvicteesOfEvictions(t, ids[1..]);
      assert ids == [ids[0]] + ids[1..];
    }
  }

  /** The lines of the header: the first three, or fewer when the input is shorter. */
  function HeaderLines(input: seq<string>): seq<string>
  {
    if |input| <= 3 then input else input[..3]
  }

  /** No line holds '\n' or NUL, as lines read with std::getline from a text file. */
  predicate AllPlain(input: seq<string>)
  {
    forall i | 0 <= i < |input| :: PlainLine(input[i])
  }
}
