/** One client action line, `HH:MM KIND CLIENT [TABLE]`, and the strict parser that reads it:
    single spaces between fields, kind 1-4, a client name over [a-z0-9_-], a table number (only
    for kind 2) without a leading zero, and nothing left over. */
module InputEvents {
  import opened Decimal
  import opened CharSources
  import opened BaseParsers
  import opened Grammar

  /** The four client actions; a table number belongs to ClientTakeTable alone and is held
      0-based (the line carries it 1-based). */
  datatype Action = ClientArrive | ClientTakeTable(tableId: nat) | ClientWait | ClientLeave

  datatype InputEvent = InputEvent(time: nat, action: Action, clientId: string)

  /** The kind number an action is written with. */
  function TypeCode(a: Action): (code: nat)
    ensures 1 <= code <= 4
  {
    match a
    case ClientArrive => 1
    case ClientTakeTable(_) => 2
    case ClientWait => 3
    case ClientLeave => 4
  }

  predicate IsIdChar(c: char) {
    'a' <= c <= 'z' || '0' <= c <= '9' || c == '_' || c == '-'
  }

  predicate IdChars(s: string) {
    forall i | 0 <= i < |s| :: IsIdChar(s[i])
  }

  predicate IsClientId(s: string) {
    |s| >= 1 && IdChars(s)
  }

  /** What an accepted line can hold: a time of day and a client name. */
  predicate WellFormed(e: InputEvent) {
    e.time < 1440 && IsClientId(e.clientId)
  }

  /** parseType: one digit, 1 to 4. */
  function TypeAt(data: string, i: nat): (st: Step<nat>)
    requires i <= |data|
    ensures InText(data, i, st)
    ensures st.Parsed? ==> 1 <= st.value <= 4 && st.next == i + 1
  {
    match FixedNumberAt(data, i, 1)
    case Failed(k) => Failed(k)
    case Parsed(t, j) => if t < 1 || t > 4 then Failed(j) else Parsed(t, j)
  }

  /** The end of the run of client-name characters that starts at index i. */
  function IdRunEnd(data: string, i: nat): (e: nat)
    requires i <= |data|
    ensures i <= e <= |data|
    ensures IdChars(data[i..e])
    ensures !IsIdChar(Peek(data, e))
    decreases |data| - i
  {
    if i < |data| && IsIdChar(data[i]) then IdRunEnd(data, i + 1) else i
  }

  /** parseClientID: name characters up to a space or the end of input; any other character, or
      an empty name, fails. */
  function ClientIdAt(data: string, i: nat): (st: Step<string>)
    requires i <= |data|
    ensures InText(data, i, st)
  {
    var e := IdRunEnd(data, i);
    if Peek(data, e) != ' ' && Peek(data, e) != '\0' then Failed(e)
    else if e == i then Failed(e)
    else Parsed(data[i..e], e)
  }

  /** getNumber: a digit 1-9, then the longest run of digits. */
  function NumberAt(data: string, i: nat): (st: Step<nat>)
    requires i <= |data|
    ensures InText(data, i, st)
    ensures st.Parsed? ==> st.value >= 1
  {
    if !('1' <= Peek(data, i) <= '9') then Failed(i)
    else
      var e := DigitRunEnd(data, i);
      PositiveValue(data[i..e]);
      Parsed(Value(data[i..e]), e)
  }

  /** The action a kind number other than 2 stands for. */
  function PlainAction(code: nat): Action
  {
    if code == 1 then ClientArrive else if code == 3 then ClientWait else ClientLeave
  }

  /** parseEvent: time, space, kind, space, then the client part. */
  function EventAt(data: string, i: nat): (st: Step<InputEvent>)
    requires i <= |data|
    ensures InText(data, i, st)
  {
    match TimeAt(data, i)
    case Failed(k) => Failed(k)
    case Parsed(time, i1) =>
      match ExpectAt(data, i1, ' ')
      case Failed(k) => Failed(k)
      case Parsed(_, i2) =>
        match TypeAt(data, i2)
        case Failed(k) => Failed(k)
        case Parsed(code, i3) => ClientPartAt(data, i3, time, code)
  }

  /** The rest of parseEvent once time and kind are read: space, client, and for kind 2 the
      table argument. */
  function ClientPartAt(data: string, i: nat, time: nat, code: nat): (st: Step<InputEvent>)
    requires i <= |data|
    ensures InText(data, i, st)
  {
    match ExpectAt(data, i, ' ')
    case Failed(k) => Failed(k)
    case Parsed(_, i1) =>
      match ClientIdAt(data, i1)
      case Failed(k) => Failed(k)
      case Parsed(id, i2) =>
        if code != 2 then Parsed(InputEvent(time, PlainAction(code), id), i2)
        else TableArgAt(data, i2, time, id)
  }

  /** The table argument of kind 2: a space and a number, stored minus one. */
  function TableArgAt(data: string, i: nat, time: nat, id: string): (st: Step<InputEvent>)
    requires i <= |data|
    ensures InText(data, i, st)
  {
    match ExpectAt(data, i, ' ')
    case Failed(k) => Failed(k)
    case Parsed(_, i1) =>
      match NumberAt(data, i1)
      case Failed(k) => Failed(k)
      case Parsed(n, i2) => Parsed(InputEvent(time, ClientTakeTable(n - 1), id), i2)
  }

  /** InputEvent::get: an event that must use up the whole line; a failure carries the line. */
  function ParseLine(data: string): Result<InputEvent>
  {
    match EventAt(data, 0)
    case Failed(k) => Err(ErrorLine(data, k))
    case Parsed(e, j) => if Peek(data, j) == '\0' then Ok(e) else Err(ErrorLine(data, j))
  }

  class EventParser {
    const base: BaseParser

    constructor (view: string)
      ensures base.Valid() && fresh(base) && fresh(base.source)
      ensures base.source.data == view && base.index == 0
    {
      base := new BaseParser(view);
    }

    ghost function Data(): string
    {
      base.source.data
    }

    /** parse: an event, then the end of input. */
    method Parse() returns (r: Result<InputEvent>)
      requires base.Valid() && base.index == 0
      modifies base, base.source
      ensures r == ParseLine(Data())
    {
      var result :- ParseEvent();
      if !base.End() {
        var msg := base.Error();
        return Err(msg);
      }
      return Ok(result);
    }

    /** parseEvent: time, space and kind here; the client part in ParseClientPart. */
    method ParseEvent() returns (r: Result<InputEvent>)
      requires base.Valid()
      modifies base, base.source
      ensures base.Valid()
      ensures Follows(r, base.index, Data(), EventAt(Data(), old(base.index)))
    {
      ghost var i0 := base.index;
      var time :- ParseTime();
      ghost var i1 := base.index;
      var sep :- base.Expect(' ');
      ghost var i2 := base.index;
      assert ExpectAt(Data(), i1, ' ') == Parsed((), i2);
      var code :- ParseType();
      assert EventAt(Data(), i0) == ClientPartAt(Data(), base.index, time, code);
      r := ParseClientPart(time, code);
    }

    /** The second half of parseEvent: space, client, and for kind 2 the table argument. */
    method ParseClientPart(time: nat, code: nat) returns (r: Result<InputEvent>)
      requires base.Valid()
      modifies base, base.source
      ensures base.Valid()
      ensures Follows(r, base.index, Data(), ClientPartAt(Data(), old(base.index), time, code))
    {
      ghost var i0 := base.index;
      var sep :- base.Expect(' ');
      ghost var i1 := base.index;
      assert ExpectAt(Data(), i0, ' ') == Parsed((), i1);
      var id :- ParseClientId();
      if code == 2 {
        assert ClientPartAt(Data(), i0, time, code) == TableArgAt(Data(), base.index, time, id);
        r := ParseTableArg(time, id);
        return;
      }
      return Ok(InputEvent(time, PlainAction(code), id));
    }

    /** The table argument of kind 2: a space, then getNumber, stored minus one. */
    method ParseTableArg(time: nat, id: string) returns (r: Result<InputEvent>)
      requires base.Valid()
      modifies base, base.source
      ensures base.Valid()
      ensures Follows(r, base.index, Data(), TableArgAt(Data(), old(base.index), time, id))
    {
      ghost var i0 := base.index;
      var sep :- base.Expect(' ');
      assert ExpectAt(Data(), i0, ' ') == Parsed((), base.index);
      var number :- GetNumber();
      return Ok(InputEvent(time, ClientTakeTable(number - 1), id));
    }

    method ParseTime() returns (r: Result<nat>)
      requires base.Valid()
      modifies base, base.source
      ensures base.Valid()
      ensures Follows(r, base.index, Data(), TimeAt(Data(), old(base.index)))
    {
      ghost var i0 := base.index;
      var hour :- ParseHour();
      ghost var i1 := base.index;
      assert HourAt(Data(), i0) == Parsed(hour, i1);
      var sep :- base.Expect(':');
      ghost var i2 := base.index;
      assert ExpectAt(Data(), i1, ':') == Parsed((), i2);
      TimeAtAfterColon(Data(), i0, hour, i1, i2);
      var minute :- ParseMinute();
      return Ok(hour * 60 + minute);
    }

    method ParseHour() returns (r: Result<nat>)
      requires base.Valid()
      modifies base, base.source
      ensures base.Valid()
      ensures Follows(r, base.index, Data(), HourAt(Data(), old(base.index)))
    {
      var hour :- ParseFixedLengthNumber(2);
      if hour > 23 {
        var msg := base.Error();
        return Err(msg);
      }
      return Ok(hour);
    }

    method ParseMinute() returns (r: Result<nat>)
      requires base.Valid()
      modifies base, base.source
      ensures base.Valid()
      ensures Follows(r, base.index, Data(), MinuteAt(Data(), old(base.index)))
    {
      var minute :- ParseFixedLengthNumber(2);
      if minute > 59 {
        var msg := base.Error();
        return Err(msg);
      }
      return Ok(minute);
    }

    method ParseType() returns (r: Result<nat>)
      requires base.Valid()
      modifies base, base.source
      ensures base.Valid()
      ensures Follows(r, base.index, Data(), TypeAt(Data(), old(base.index)))
    {
      var code :- ParseFixedLengthNumber(1);
      if code < 1 || code > 4 {
        var msg := base.Error();
        return Err(msg);
      }
      return Ok(code);
    }

    method ParseClientId() returns (r: Result<string>)
      requires base.Valid()
      modifies base, base.source
      ensures base.Valid()
      ensures Follows(r, base.index, Data(), ClientIdAt(Data(), old(base.index)))
    {
      ghost var start := base.index;
      var result := "";
      while !base.Test(' ') && !base.End()
        invariant base.Valid() && start <= base.index <= |Data()|
        invariant result == Data()[start..base.index]
        invariant IdRunEnd(Data(), start) == IdRunEnd(Data(), base.index)
        decreases |Data()| - base.index
      {
        if base.Between('a', 'z') || base.Between('0', '9') || base.Test('_') || base.Test('-') {
          ghost var here := base.index;
          assert IsIdChar(Data()[here]);
          var c := base.Take();
          SliceExtend(Data(), start, here);
          result := result + [c];
        } else {
          assert !IsIdChar(Peek(Data(), base.index));
          assert IdRunEnd(Data(), base.index) == base.index;
          var msg := base.Error();
          return Err(msg);
        }
      }
      assert IdRunEnd(Data(), base.index) == base.index;
      if result == [] {
        var msg := base.Error();
        return Err(msg);
      }
      return Ok(result);
    }

    method ParseFixedLengthNumber(length: nat) returns (r: Result<nat>)
      requires base.Valid()
      modifies base, base.source
      ensures base.Valid()
      ensures Follows(r, base.index, Data(), FixedNumberAt(Data(), old(base.index), length))
    {
      ghost var start := base.index;
      var number := "";
      for i := 0 to length
        invariant base.Valid() && base.index == start + i <= |Data()|
        invariant number == Data()[start..base.index] && AllDigits(number)
        invariant DigitRunEnd(Data(), start) == DigitRunEnd(Data(), base.index)
      {
        if !base.Between('0', '9') {
          var msg := base.Error();
          return Err(msg);
        }
        ghost var here := base.index;
        var c := base.Take();
        SliceExtend(Data(), start, here);
        number := number + [c];
      }
      return Ok(Value(number));
    }

    method GetNumber() returns (r: Result<nat>)
      requires base.Valid()
      modifies base, base.source
      ensures base.Valid()
      ensures Follows(r, base.index, Data(), NumberAt(Data(), old(base.index)))
    {
      ghost var start := base.index;
      if !base.Between('1', '9') {
        var msg := base.Error();
        return Err(msg);
      }
      assert start < |Data()|;
      var c := base.Take();
      var number := [c];
      assert base.index == start + 1 && c == Data()[start];
      assert Data()[start..start + 1] == [Data()[start]];
      while base.Between('0', '9')
        invariant base.Valid() && start < base.index <= |Data()|
        invariant number == Data()[start..base.index] && AllDigits(number)
        invariant DigitRunEnd(Data(), start) == DigitRunEnd(Data(), base.index)
        decreases |Data()| - base.index
      {
        ghost var here := base.index;
        c := base.Take();
        assert c == Data()[here] && base.index == here + 1;
        SliceExtend(Data(), start, here);
        number := number + [c];
      }
      return Ok(Value(number));
    }
  }

  /** InputEvent::get: parse one action line. */
  method Get(view: string) returns (r: Result<InputEvent>)
    ensures r == ParseLine(view)
  {
    var parser := new EventParser(view);
    r := parser.Parse();
  }

  /** An accepted line holds a time of day in [0, 1439] and a non-empty client name drawn from
      [a-z0-9_-]; a table number is never below 1 on the line, so its stored form is a nat. */
  lemma ParseLineAccepts(data: string)
    requires ParseLine(data).Ok?
    ensures WellFormed(ParseLine(data).value)
  {
    var st := EventAt(data, 0);
    var t := TimeAt(data, 0);
    TimeAtAccepts(data, 0);
    var e1 := ExpectAt(data, t.next, ' ');
    var c := TypeAt(data, e1.next);
    var e2 := ExpectAt(data, c.next, ' ');
    var id := ClientIdAt(data, e2.next);
    assert id.Parsed?;
  }

  /** A line without '\n' or NUL that is rejected is quoted whole as the diagnostic. */
  lemma RejectedLineIsQuoted(data: string)
    requires PlainLine(data)
    requires ParseLine(data).Err?
    ensures ParseLine(data).line == data
  {
    match EventAt(data, 0)
    case Failed(k) =>
      LineTextOfPlainLine(data, ScanFrom(SourcePos(data, k)));
    case Parsed(e, j) =>
      LineTextOfPlainLine(data, ScanFrom(SourcePos(data, j)));
  }
}
