/** The three-line header: the number of tables, the opening and closing times, and the hourly
    rate, read by a strict parser over the same lookahead scanner as the action lines. */
module ManagerData {
  import opened Decimal
  import opened CharSources
  import opened BaseParsers
  import opened Grammar
  import opened EventFormat

  datatype Config = Config(tableCount: nat, beginTime: nat, endTime: nat, costPerHour: nat)

  /** parseUnsignedInt: at least one digit, then the longest run of digits; leading zeros are
      allowed. */
  function UintAt(data: string, i: nat): (st: Step<nat>)
    requires i <= |data|
    ensures InText(data, i, st)
    ensures st.Parsed? <==> IsDigit(Peek(data, i))
    ensures st.Parsed? ==> st.next == DigitRunEnd(data, i) && st.value == Value(data[i..st.next])
  {
    if !IsDigit(Peek(data, i)) then Failed(i)
    else
      var e := DigitRunEnd(data, i);
      Parsed(Value(data[i..e]), e)
  }

  /** parse: the table count (at least 1), a newline, then the rest. */
  function HeaderAt(data: string): (st: Step<Config>)
    ensures InText(data, 0, st)
  {
    match UintAt(data, 0)
    case Failed(k) => Failed(k)
    case Parsed(count, i1) =>
      if count < 1 then Failed(i1)
      else
        match ExpectAt(data, i1, '\n')
        case Failed(k) => Failed(k)
        case Parsed(_, i2) => HoursAt(data, i2, count)
  }

  /** The second line: opening time, a space, closing time, a newline; then the rate. */
  function HoursAt(data: string, i: nat, count: nat): (st: Step<Config>)
    requires i <= |data|
    ensures InText(data, i, st)
  {
    match TimeAt(data, i)
    case Failed(k) => Failed(k)
    case Parsed(begin, i1) =>
      match ExpectAt(data, i1, ' ')
      case Failed(k) => Failed(k)
      case Parsed(_, i2) =>
        match TimeAt(data, i2)
        case Failed(k) => Failed(k)
        case Parsed(end, i3) =>
          match ExpectAt(data, i3, '\n')
          case Failed(k) => Failed(k)
          case Parsed(_, i4) => RateAt(data, i4, count, begin, end)
  }

  /** The hourly rate, which must not be 0. Nothing is required after it. */
  function RateAt(data: string, i: nat, count: nat, begin: nat, end: nat): (st: Step<Config>)
    requires i <= |data|
    ensures InText(data, i, st)
  {
    match UintAt(data, i)
    case Failed(k) => Failed(k)
    case Parsed(rate, j) => if rate == 0 then Failed(j) else Parsed(Config(count, begin, end, rate), j)
  }

  /** RevenuerManagerData::get: the header, or the line where parsing stopped. */
  function ParseHeader(data: string): Result<Config>
  {
    match HeaderAt(data)
    case Failed(k) => Err(ErrorLine(data, k))
    case Parsed(c, _) => Ok(c)
  }

  class RevenuerManagerDataParser {
    const base: BaseParser

    constructor (view: string)
      ensures base.Valid() && fresh(base) && fresh(base.source)
      ensures base.source.data == view && base.index == 0
    {
      base := new BaseParser(view);
    }

    ghost function Data(): string
    {
      base.source.data
    }

    /** parse: count, newline, then the hours and the rate. */
    method Parse() returns (r: Result<Config>)
      requires base.Valid() && base.index == 0
      modifies base, base.source
      ensures base.Valid()
      ensures Follows(r, base.index, Data(), HeaderAt(Data()))
    {
      var count :- ParseUnsignedInt();
      if count < 1 {
        var msg := base.Error();
        return Err(msg);
      }
      ghost var i1 := base.index;
      var sep :- base.Expect('\n');
      assert ExpectAt(Data(), i1, '\n') == Parsed((), base.index);
      r := ParseHours(count);
    }

    /** The second half of parse: both times, then the rate. */
    method ParseHours(count: nat) returns (r: Result<Config>)
      requires base.Valid()
      modifies base, base.source
      ensures base.Valid()
      ensures Follows(r, base.index, Data(), HoursAt(Data(), old(base.index), count))
    {
      ghost var i0 := base.index;
      var begin :- ParseTime();
      ghost var i1 := base.index;
      assert TimeAt(Data(), i0) == Parsed(begin, i1);
      var sep :- base.Expect(' ');
      ghost var i2 := base.index;
      assert ExpectAt(Data(), i1, ' ') == Parsed((), i2);
      var end :- ParseTime();
      ghost var i3 := base.index;
      assert TimeAt(Data(), i2) == Parsed(end, i3);
      var sep' :- base.Expect('\n');
      assert ExpectAt(Data(), i3, '\n') == Parsed((), base.index);
      assert HoursAt(Data(), i0, count) == RateAt(Data(), base.index, count, begin, end);
      var rate :- ParseUnsignedInt();
      if rate == 0 {
        var msg := base.Error();
        return Err(msg);
      }
      return Ok(Config(count, begin, end, rate));
    }

    method ParseUnsignedInt() returns (r: Result<nat>)
      requires base.Valid()
      modifies base, base.source
      ensures base.Valid()
      ensures Follows(r, base.index, Data(), UintAt(Data(), old(base.index)))
    {
      ghost var start := base.index;
      if !base.Between('0', '9') {
        var msg := base.Error();
        return Err(msg);
      }
      assert start < |Data()|;
      var c := base.Take();
      var number := [c];
      assert base.index == start + 1 && c == Data()[start];
      assert Data()[start..start + 1] == [Data()[start]];
      while base.Between('0', '9')
        invariant base.Valid() && start < base.index <= |Data()|
        invariant number == Data()[start..base.index] && AllDigits(number)
        invariant DigitRunEnd(Data(), start) == DigitRunEnd(Data(), base.index)
        decreases |Data()| - base.index
      {
        ghost var here := base.index;
        c := base.Take();
        assert c == Data()[here] && base.index == here + 1;
        SliceExtend(Data(), start, here);
        number := number + [c];
      }
      return Ok(Value(number));
    }

    method ParseTime() returns (r: Result<nat>)
      requires base.Valid()
      modifies base, base.source
      ensures base.Valid()
      ensures Follows(r, base.index, Data(), TimeAt(Data(), old(base.index)))
    {
      ghost var i0 := base.index;
      var hour :- ParseHour();
      ghost var i1 := base.index;
      assert HourAt(Data(), i0) == Parsed(hour, i1);
      var sep :- base.Expect(':');
      ghost var i2 := base.index;
      assert ExpectAt(Data(), i1, ':') == Parsed((), i2);
      TimeAtAfterColon(Data(), i0, hour, i1, i2);
      var minute :- ParseMinute();
      return Ok(hour * 60 + minute);
    }

    method ParseHour() returns (r: Result<nat>)
      requires base.Valid()
      modifies base, base.source
      ensures base.Valid()
      ensures Follows(r, base.index, Data(), HourAt(Data(), old(base.index)))
    {
      var hour :- ParseFixedLengthNumber(2);
      if hour > 23 {
        var msg := base.Error();
        return Err(msg);
      }
      return Ok(hour);
    }

    method ParseMinute() returns (r: Result<nat>)
      requires base.Valid()
      modifies base, base.source
      ensures base.Valid()
      ensures Follows(r, base.index, Data(), MinuteAt(Data(), old(base.index)))
    {
      var minute :- ParseFixedLengthNumber(2);
      if minute > 59 {
        var msg := base.Error();
        return Err(msg);
      }
      return Ok(minute);
    }

    method ParseFixedLengthNumber(length: nat) returns (r: Result<nat>)
      requires base.Valid()
      modifies base, base.source
      ensures base.Valid()
      ensures Follows(r, base.index, Data(), FixedNumberAt(Data(), old(base.index), length))
    {
      ghost var start := base.index;
      var number := "";
      for i := 0 to length
        invariant base.Valid() && base.index == start + i <= |Data()|
        invariant number == Data()[start..base.index] && AllDigits(number)
        invariant DigitRunEnd(Data(), start) == DigitRunEnd(Data(), base.index)
      {
        if !base.Between('0', '9') {
          var msg := base.Error();
          return Err(msg);
        }
        ghost var here := base.index;
        var c := base.Take();
        SliceExtend(Data(), start, here);
        number := number + [c];
      }
      return Ok(Value(number));
    }
  }

  /** RevenuerManagerData::get: parse the header text. */
  method Get(view: string) returns (r: Result<Config>)
    ensures r == ParseHeader(view)
  {
    var parser := new RevenuerManagerDataParser(view);
    r := parser.Parse();
  }

  /** An accepted header has at least one table, a non-zero rate and two times of day; the
      order of the two times is not checked. */
  lemma HeaderAccepts(data: string)
    requires ParseHeader(data).Ok?
    ensures var c := ParseHeader(data).value;
      c.tableCount >= 1 && c.costPerHour >= 1 && c.beginTime < 1440 && c.endTime < 1440
  {
    var i2 := ExpectAt(data, UintAt(data, 0).next, '\n').next;
    var b := TimeAt(data, i2);
    TimeAtAccepts(data, i2);
    var i4 := ExpectAt(data, b.next, ' ').next;
    TimeAtAccepts(data, i4);
  }

  /** The header layout is accepted with the numbers it spells: a count and a rate in digits
      (leading zeros allowed), both non-zero, and two times of day; whatever follows the rate
      is ignored as long as it does not continue it with a digit. */
  lemma ParseHeaderOfLayout(count: string, begin: nat, end: nat, rate: string, rest: string)
    requires |count| >= 1 && AllDigits(count) && Value(count) >= 1
    requires |rate| >= 1 && AllDigits(rate) && Value(rate) >= 1
    requires begin < 1440 && end < 1440
    requires !IsDigit(Peek(rest, 0))
    ensures ParseHeader(count + "\n" + FormatTime(begin) + " " + FormatTime(end) + "\n" + rate + rest)
      == Ok(Config(Value(count), begin, end, Value(rate)))
  {
    var data := count + "\n" + FormatTime(begin) + " " + FormatTime(end) + "\n" + rate + rest;
    var i2 := |count| + 1;
    var i4 := i2 + 12;
    LayoutIndices(count, FormatTime(begin), FormatTime(end), rate, rest);
    CountOfLayout(data, count);
    HoursOfLayout(data, i2, Value(count), begin, end);
    RateOfLayout(data, i4, Value(count), begin, end, rate);
  }

  /** Where each field of the header layout sits. */
  lemma LayoutIndices(count: string, begin: string, end: string, rate: string, rest: string)
    requires |begin| == 5 && |end| == 5
    ensures var data := count + "\n" + begin + " " + end + "\n" + rate + rest;
      var i2, i4 := |count| + 1, |count| + 13;
      && |data| == i4 + |rate| + |rest|
      && data[..|count|] == count && data[|count|] == '\n'
      && data[i2..i2 + 5] == begin && data[i2 + 5] == ' '
      && data[i2 + 6..i2 + 11] == end && data[i2 + 11] == '\n'
      && data[i4..i4 + |rate|] == rate
      && Peek(data, i4 + |rate|) == Peek(rest, 0)
  {
  }

  /** Conversely, an accepted header has the layout: digits for the count, the two times in
      HH:MM separated by one space, digits for the rate, each line ended by '\n', and after the
      rate anything that does not start with a digit. */
  lemma LayoutOfHeader(data: string) returns (count: string, rate: string, rest: string)
    requires ParseHeader(data).Ok?
    ensures var c := ParseHeader(data).value;
      && |count| >= 1 && AllDigits(count) && Value(count) == c.tableCount
      && |rate| >= 1 && AllDigits(rate) && Value(rate) == c.costPerHour
      && !IsDigit(Peek(rest, 0))
      && data == count + "\n" + FormatTime(c.beginTime) + " " + FormatTime(c.endTime) + "\n" + rate + rest
  {
    var i1 := CountOfHeader(data);
    var begin, end, j := HoursOfHeader(data, i1 + 1, Value(data[..i1]));
    count, rate, rest := data[..i1], data[i1 + 13..j], data[j..];
    LayoutOfFields(data, i1, FormatTime(begin), FormatTime(end), j);
  }

  lemma CountOfHeader(data: string) returns (i1: nat)
    requires HeaderAt(data).Parsed?
    ensures 1 <= i1 < |data| && data[i1] == '\n' && AllDigits(data[..i1])
    ensures HeaderAt(data) == HoursAt(data, i1 + 1, Value(data[..i1]))
  {
    i1 := UintAt(data, 0).next;
    ExpectBeforeTime(data, i1, '\n');
    assert data[..i1] == data[0..i1];
  }

  lemma HoursOfHeader(data: string, i: nat, count: nat) returns (begin: nat, end: nat, j: nat)
    requires i <= |data| && HoursAt(data, i, count).Parsed?
    ensures i + 12 < j <= |data| && begin < 1440 && end < 1440
    ensures data[i..i + 5] == FormatTime(begin) && data[i + 5] == ' '
    ensures data[i + 6..i + 11] == FormatTime(end) && data[i + 11] == '\n'
    ensures AllDigits(data[i + 12..j]) && !IsDigit(Peek(data, j))
    ensures HoursAt(data, i, count) == Parsed(Config(count, begin, end, Value(data[i + 12..j])), j)
  {
    begin := FieldTime(data, i);
    ExpectBeforeTime(data, i + 5, ' ');
    end := FieldTime(data, i + 6);
    ExpectBeforeUint(data, i + 11, '\n');
    assert HoursAt(data, i, count) == RateAt(data, i + 12, count, begin, end);
    j := UintAt(data, i + 12).next;
  }

  /** An expect that is followed by an accepted number consumed its character. */
  lemma ExpectBeforeUint(data: string, k: nat, c: char)
    requires k <= |data| && ExpectAt(data, k, c).Parsed?
    requires UintAt(data, ExpectAt(data, k, c).next).Parsed?
    ensures k < |data| && data[k] == c && ExpectAt(data, k, c).next == k + 1
  {
  }

  /** A text whose fields sit where the layout puts them is the layout. */
  lemma LayoutOfFields(data: string, i1: nat, begin: string, end: string, j: nat)
    requires |begin| == 5 && |end| == 5 && i1 + 13 <= j <= |data|
    requires data[i1] == '\n' && data[i1 + 1..i1 + 6] == begin && data[i1 + 6] == ' '
    requires data[i1 + 7..i1 + 12] == end && data[i1 + 12] == '\n'
    ensures data == data[..i1] + "\n" + begin + " " + end + "\n" + data[i1 + 13..j] + data[j..]
  {
  }

  /** An accepted time at index i occupies five characters and is the rendering of its value. */
  lemma FieldTime(data: string, i: nat) returns (t: nat)
    requires i <= |data| && TimeAt(data, i).Parsed?
    ensures TimeAt(data, i) == Parsed(t, i + 5) && t < 1440
    ensures data[i..i + 5] == FormatTime(t)
  {
    TimeAtAccepts(data, i);
    t := TimeAt(data, i).value;
    FieldText(data, i, t);
  }

  lemma CountOfLayout(data: string, count: string)
    requires |count| >= 1 && AllDigits(count) && Value(count) >= 1
    requires |data| > |count| && data[..|count|] == count && data[|count|] == '\n'
    ensures HeaderAt(data) == HoursAt(data, |count| + 1, Value(count))
  {
    assert data[0..|count|] == count;
    DigitRunIs(data, 0, count);
  }

  lemma HoursOfLayout(data: string, i: nat, count: nat, begin: nat, end: nat)
    requires begin < 1440 && end < 1440 && i + 12 <= |data|
    requires data[i..i + 5] == FormatTime(begin) && data[i + 5] == ' '
    requires data[i + 6..i + 11] == FormatTime(end) && data[i + 11] == '\n'
    ensures HoursAt(data, i, count) == RateAt(data, i + 12, count, begin, end)
  {
    TimeAtOfText(data, i, begin);
    TimeAtOfText(data, i + 6, end);
  }

  lemma RateOfLayout(data: string, i: nat, count: nat, begin: nat, end: nat, rate: string)
    requires |rate| >= 1 && AllDigits(rate) && Value(rate) >= 1
    requires i + |rate| <= |data| && data[i..i + |rate|] == rate
    requires !IsDigit(Peek(data, i + |rate|))
    ensures RateAt(data, i, count, begin, end).Parsed?
    ensures RateAt(data, i, count, begin, end).value == Config(count, begin, end, Value(rate))
  {
    assert data[i] == rate[0] && IsDigit(Peek(data, i));
    DigitRunIs(data, i, rate);
  }

  /** A rendered time of day at index i is read back by parseTime. */
  lemma TimeAtOfText(data: string, i: nat, t: nat)
    requires t < 1440 && i + 5 <= |data| && data[i..i + 5] == FormatTime(t)
    ensures TimeAt(data, i) == Parsed(t, i + 5)
  {
    assert data[i..i + 2] == data[i..i + 5][..2] && data[i + 3..i + 5] == data[i..i + 5][3..];
    TimeAtOfFields(data, i);
  }

  /** A table count of 0 is rejected, and the diagnostic is the first line. */
  lemma ZeroTablesRejected(count: string, rest: string)
    requires |count| >= 1 && AllDigits(count) && Value(count) == 0
    ensures ParseHeader(count + "\n" + rest) == Err(count)
  {
    var data := count + "\n" + rest;
    assert data[0..|count|] == count;
    DigitRunIs(data, 0, count);
    assert HeaderAt(data) == Failed(|count|);
    LineStartInFirst(data, count, |count|);
    ScanEndInFirst(data, count, |count|);
    assert data[..|count|] == count;
  }
}
