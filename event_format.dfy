/** The text the engine writes: formatTime (hours and minutes, each padded to two digits) and
    to_string of an action line. Reading back what was written gives the same action, and an
    accepted line without NUL is written back exactly as it was read. */
module EventFormat {
  import opened Decimal
  import opened BaseParsers
  import opened Grammar
  import opened InputEvents

  /** formatTime: minutes since midnight as HH:MM; each field padded to two digits and allowed to
      be wider, as setw(2) does. Below 100 hours the text is five characters whose two fields
      read back to the hours and minutes of t. */
  function FormatTime(t: nat): (s: string)
    ensures t < 6000 ==> |s| == 5 && s[2] == ':' && AllDigits(s[..2]) && AllDigits(s[3..])
    ensures t < 6000 ==> Value(s[..2]) == t / 60 && Value(s[3..]) == t % 60
  {
    var hours, minutes := Pad2(NatText(t / 60)), Pad2(NatText(t % 60));
    if t < 6000 then
      TwoDigitText(t / 60);
      TwoDigitText(t % 60);
      TwoDigitValue(hours);
      TwoDigitValue(minutes);
      var s := hours + ":" + minutes;
      assert s[..2] == hours && s[3..] == minutes;
      s
    else
      hours + ":" + minutes
  }

  /** to_string: time, kind number and client, and for kind 2 the table number one-based. */
  function EventText(e: InputEvent): string
  {
    match e.action
    case ClientTakeTable(table) => EventHead(e) + " " + NatText(table + 1)
    case _ => EventHead(e)
  }

  /** The part of to_string common to every kind. */
  function EventHead(e: InputEvent): string
  {
    FormatTime(e.time) + " " + [DigitChar(TypeCode(e.action))] + " " + e.clientId
  }

  /** A valid HH:MM field is the rendering of the time it stands for. */
  lemma FormatTimeOfFields(s: string)
    requires |s| == 5 && s[2] == ':' && AllDigits(s[..2]) && AllDigits(s[3..])
    requires Value(s[..2]) <= 23 && Value(s[3..]) <= 59
    ensures FormatTime(Value(s[..2]) * 60 + Value(s[3..])) == s
  {
    var h, m := Value(s[..2]), Value(s[3..]);
    var t := h * 60 + m;
    assert t / 60 == h && t % 60 == m;
    PaddedTwoDigits(s[..2]);
    PaddedTwoDigits(s[3..]);
    assert s == s[..2] + ":" + s[3..];
  }

  /** Two in-range digits on each side of ':' are the rendering of the time they denote. */
  lemma FieldText(data: string, i: nat, t: nat)
    requires i + 5 <= |data| && data[i + 2] == ':'
    requires AllDigits(data[i..i + 2]) && AllDigits(data[i + 3..i + 5])
    requires Value(data[i..i + 2]) <= 23 && Value(data[i + 3..i + 5]) <= 59
    requires t == Value(data[i..i + 2]) * 60 + Value(data[i + 3..i + 5])
    ensures data[i..i + 5] == FormatTime(t)
  {
    var field := data[i..i + 5];
    assert field[..2] == data[i..i + 2] && field[3..] == data[i + 3..i + 5];
    FormatTimeOfFields(field);
  }

  /** A one-digit string reads back as its digit. */
  lemma SingleDigit(c: char)
    requires IsDigit(c)
    ensures Value([c]) == DigitValue(c) && DigitChar(DigitValue(c)) == c
  {
    assert [c][..0] == [];
  }

  /** Client-name characters followed by a non-name character end the name run exactly there. */
  lemma {:induction false} IdRunExactly(data: string, i: nat, n: nat)
    requires i + n <= |data| && IdChars(data[i..i + n]) && !IsIdChar(Peek(data, i + n))
    ensures IdRunEnd(data, i) == i + n
    decreases n
  {
    if n > 0 {
      assert IsIdChar(data[i..i + n][0]);
      assert data[i + 1..i + n] == data[i..i + n][1..];
      IdRunExactly(data, i + 1, n - 1);
    }
  }

  /** The layout of the text of e, position by position. */
  predicate Laid(s: string, e: InputEvent)
  {
    var idEnd := 8 + |e.clientId|;
    && |s| >= idEnd && s[..5] == FormatTime(e.time) && s[5] == ' '
    && s[6] == DigitChar(TypeCode(e.action)) && s[7] == ' ' && s[8..idEnd] == e.clientId
    && match e.action
       case ClientTakeTable(table) => |s| > idEnd && s[idEnd] == ' ' && s[idEnd + 1..] == NatText(table + 1)
       case _ => |s| == idEnd
  }

  /** The layout holds of exactly one text: the text of e. */
  lemma LaidIsText(s: string, e: InputEvent)
    requires |FormatTime(e.time)| == 5
    ensures Laid(s, e) <==> s == EventText(e)
  {
    if Laid(s, e) {
      TextOfLaid(s, e);
    }
    if s == EventText(e) {
      LaidOfText(e);
    }
  }

  /** Where the fields of the common part lie. */
  lemma HeadLayout(e: InputEvent)
    requires |FormatTime(e.time)| == 5
    ensures var head := EventHead(e);
      && |head| == 8 + |e.clientId| && head[..5] == FormatTime(e.time) && head[5] == ' '
      && head[6] == DigitChar(TypeCode(e.action)) && head[7] == ' ' && head[8..] == e.clientId
  {
  }

  lemma TextOfLaid(s: string, e: InputEvent)
    requires |FormatTime(e.time)| == 5 && Laid(s, e)
    ensures s == EventText(e)
  {
    var idEnd := 8 + |e.clientId|;
    HeadOfLaid(s, e);
    match e.action {
      case ClientTakeTable(table) =>
        assert s == s[..idEnd] + " " + s[idEnd + 1..];
      case _ =>
        assert s == s[..idEnd];
    }
  }

  /** A laid-out text starts with the common part. */
  lemma HeadOfLaid(s: string, e: InputEvent)
    requires |FormatTime(e.time)| == 5 && Laid(s, e)
    ensures s[..8 + |e.clientId|] == EventHead(e)
  {
    var idEnd := 8 + |e.clientId|;
    HeadLayout(e);
    var head := EventHead(e);
    var front := s[..idEnd];
    assert front[..5] == s[..5] && front[8..] == s[8..idEnd];
    assert front == front[..5] + [front[5], front[6], front[7]] + front[8..];
    assert head == head[..5] + [head[5], head[6], head[7]] + head[8..];
  }

  lemma LaidOfText(e: InputEvent)
    requires |FormatTime(e.time)| == 5
    ensures Laid(EventText(e), e)
  {
    var s := EventText(e);
    var idEnd := 8 + |e.clientId|;
    HeadLayout(e);
    assert s[..idEnd] == EventHead(e);
    assert s[..idEnd][..5] == s[..5] && s[..idEnd][8..] == s[8..idEnd];
  }

  /** The time of day rendered by FormatTime is read back by parseTime. */
  lemma TimeOfText(data: string, t: nat)
    requires t < 1440 && |data| >= 5 && data[..5] == FormatTime(t)
    ensures TimeAt(data, 0) == Parsed(t, 5)
  {
    assert data[..2] == data[..5][..2] && data[3..5] == data[..5][3..];
    TimeAtOfFields(data, 0);
  }

  /** A kind digit 1-4 is read back by parseType. */
  lemma KindOfText(data: string, i: nat, code: nat)
    requires i < |data| && 1 <= code <= 4 && data[i] == DigitChar(code)
    ensures TypeAt(data, i) == Parsed(code, i + 1)
  {
    DigitRunAtLeast(data, i, 1);
    SingleDigit(data[i]);
    assert data[i..i + 1] == [data[i]];
  }

  /** A client name followed by a space or the end is read back by parseClientID. */
  lemma ClientOfText(data: string, i: nat, id: string)
    requires IsClientId(id) && i + |id| <= |data| && data[i..i + |id|] == id
    requires Peek(data, i + |id|) == ' ' || Peek(data, i + |id|) == '\0'
    ensures ClientIdAt(data, i) == Parsed(id, i + |id|)
  {
    IdRunExactly(data, i, |id|);
  }

  /** parseType accepts exactly one digit from 1 to 4, and reads it as that digit's value. */
  lemma TypeAtIff(data: string, i: nat)
    requires i <= |data|
    ensures TypeAt(data, i).Parsed? <==> i < |data| && '1' <= data[i] <= '4'
    ensures TypeAt(data, i).Parsed? ==> TypeAt(data, i) == Parsed(DigitValue(data[i]), i + 1)
  {
    if i < |data| && IsDigit(data[i]) {
      assert data[i..i + 1] == [data[i]];
      DigitRunAtLeast(data, i, 1);
      SingleDigit(data[i]);
    }
  }

  /** parseClientID yields id exactly when id is a non-empty name of [a-z0-9_-] that the text
      holds at i and that ends at a space or at the end of the input. */
  lemma ClientIdAtIff(data: string, i: nat, id: string)
    requires i <= |data|
    ensures ClientIdAt(data, i) == Parsed(id, i + |id|) <==>
      && IsClientId(id) && i + |id| <= |data| && data[i..i + |id|] == id
      && (Peek(data, i + |id|) == ' ' || Peek(data, i + |id|) == '\0')
  {
    if IsClientId(id) && i + |id| <= |data| && data[i..i + |id|] == id
      && (Peek(data, i + |id|) == ' ' || Peek(data, i + |id|) == '\0')
    {
      ClientOfText(data, i, id);
    }
  }

  /** The rendering of a positive number ending the text is read back by getNumber. */
  lemma NumberOfText(data: string, i: nat, n: nat)
    requires n >= 1 && i <= |data| && data[i..] == NatText(n)
    ensures NumberAt(data, i) == Parsed(n, |data|)
  {
    var digits := NatText(n);
    assert data[i..i + |digits|] == digits;
    DigitRunIs(data, i, digits);
    ValueOfNatText(n);
  }

  /** Writing then reading: every action a line can hold is read back from its own text. */
  lemma ParseEventText(e: InputEvent)
    requires WellFormed(e)
    ensures ParseLine(EventText(e)) == Ok(e)
  {
    var data := EventText(e);
    var code := TypeCode(e.action);
    var idEnd := 8 + |e.clientId|;
    LaidIsText(data, e);
    TimeOfText(data, e.time);
    KindOfText(data, 6, code);
    assert EventAt(data, 0) == ClientPartAt(data, 7, e.time, code);
    ClientOfText(data, 8, e.clientId);
    match e.action {
      case ClientTakeTable(table) =>
        assert ClientPartAt(data, 7, e.time, code) == TableArgAt(data, idEnd, e.time, e.clientId);
        NumberOfText(data, idEnd + 1, table + 1);
      case _ =>
    }
  }

  /** Reading then writing: an accepted line without NUL is the text of the action read from
      it. */
  lemma EventTextOfParse(s: string)
    requires forall i | 0 <= i < |s| :: s[i] != '\0'
    requires ParseLine(s).Ok?
    ensures EventText(ParseLine(s).value) == s
  {
    assert EventAt(s, 0).Parsed? && Peek(s, EventAt(s, 0).next) == '\0';
    var e := EventAt(s, 0).value;
    var time, code, id, idEnd := EventOfLine(s);
    if code == 2 {
      TableOfLine(s, idEnd, time, id);
      LaidOfFields(s, e, time, code, id, idEnd);
    } else {
      assert |s| == idEnd;
      LaidOfFields(s, e, time, code, id, idEnd);
    }
    TextOfLaid(s, e);
  }

  /** The time, kind and client of an accepted line, and what the rest of it must hold. */
  lemma EventOfLine(s: string) returns (time: nat, code: nat, id: string, idEnd: nat)
    requires forall i | 0 <= i < |s| :: s[i] != '\0'
    requires EventAt(s, 0).Parsed?
    ensures 1 <= code <= 4 && 8 <= idEnd <= |s| && id == s[8..idEnd]
    ensures s[..5] == FormatTime(time) && s[5] == ' ' && s[6] == DigitChar(code) && s[7] == ' '
    ensures code != 2 ==> EventAt(s, 0) == Parsed(InputEvent(time, PlainAction(code), id), idEnd)
    ensures code == 2 ==> EventAt(s, 0) == TableArgAt(s, idEnd, time, id)
  {
    assert TimeAt(s, 0).Parsed?;
    time := TimeOfLine(s);
    code := KindOfLine(s, time);
    id, idEnd := ClientOfLine(s, time, code);
  }

  /** The layout, field by field. */
  lemma LaidOfFields(s: string, e: InputEvent, time: nat, code: nat, id: string, idEnd: nat)
    requires 1 <= code <= 4 && 8 <= idEnd <= |s| && id == s[8..idEnd]
    requires s[..5] == FormatTime(time) && s[5] == ' ' && s[6] == DigitChar(code) && s[7] == ' '
    requires code != 2 ==> e == InputEvent(time, PlainAction(code), id) && |s| == idEnd
    requires code == 2 ==> e.time == time && e.clientId == id && e.action.ClientTakeTable?
    requires code == 2 ==> |s| > idEnd && s[idEnd] == ' ' && s[idEnd + 1..] == NatText(e.action.tableId + 1)
    ensures Laid(s, e)
  {
    assert e.time == time && e.clientId == id && TypeCode(e.action) == code;
    assert idEnd == 8 + |e.clientId|;
  }

  lemma TimeOfLine(s: string) returns (time: nat)
    requires TimeAt(s, 0).Parsed?
    ensures TimeAt(s, 0) == Parsed(time, 5) && time < 1440
    ensures |s| >= 5 && s[..5] == FormatTime(time)
  {
    TimeAtAccepts(s, 0);
    time := TimeAt(s, 0).value;
    FieldText(s, 0, time);
    assert s[..5] == s[0..5];
  }

  lemma KindOfLine(s: string, time: nat) returns (code: nat)
    requires forall i | 0 <= i < |s| :: s[i] != '\0'
    requires TimeAt(s, 0) == Parsed(time, 5) && EventAt(s, 0).Parsed?
    ensures 1 <= code <= 4 && |s| > 7 && s[5] == ' ' && s[6] == DigitChar(code) && s[7] == ' '
    ensures EventAt(s, 0) == ClientPartAt(s, 7, time, code)
  {
    assert Peek(s, 5) == ' ';
    code := TypeAt(s, 6).value;
    SingleDigit(s[6]);
    assert s[6..7] == [s[6]];
    assert EventAt(s, 0) == ClientPartAt(s, 7, time, code);
    assert Peek(s, 7) == ' ';
  }

  lemma ClientOfLine(s: string, time: nat, code: nat) returns (id: string, idEnd: nat)
    requires |s| > 7 && s[7] == ' ' && ClientPartAt(s, 7, time, code).Parsed?
    ensures 8 <= idEnd <= |s| && id == s[8..idEnd]
    ensures code != 2 ==> ClientPartAt(s, 7, time, code) == Parsed(InputEvent(time, PlainAction(code), id), idEnd)
    ensures code == 2 ==> ClientPartAt(s, 7, time, code) == TableArgAt(s, idEnd, time, id)
  {
    idEnd := ClientIdAt(s, 8).next;
    id := s[8..idEnd];
  }

  lemma TableOfLine(s: string, idEnd: nat, time: nat, id: string)
    requires forall i | 0 <= i < |s| :: s[i] != '\0'
    requires idEnd <= |s| && TableArgAt(s, idEnd, time, id).Parsed?
    requires Peek(s, TableArgAt(s, idEnd, time, id).next) == '\0'
    ensures TableArgAt(s, idEnd, time, id).value.action.ClientTakeTable?
    ensures |s| > idEnd && s[idEnd] == ' '
    ensures s[idEnd + 1..] == NatText(TableArgAt(s, idEnd, time, id).value.action.tableId + 1)
  {
    assert Peek(s, idEnd) == ' ';
    var numEnd := NumberAt(s, idEnd + 1).next;
    assert numEnd == |s|;
    assert s[idEnd + 1..numEnd] == s[idEnd + 1..];
    NatTextOfValue(s[idEnd + 1..]);
  }
}
