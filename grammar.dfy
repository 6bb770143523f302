/** The pieces of grammar that the header parser and the action parser share, written as pure
    functions of the text and the lookahead index: a step either yields a value and the next
    lookahead index, or fails at the lookahead index where the parser throws. Both parser classes
    are proved to follow these steps. */
module Grammar {
  import opened Decimal
  import opened BaseParsers

  datatype Step<T> = Parsed(value: T, next: nat) | Failed(at: nat)

  /** A step that stays inside the text and never moves backwards. */
  predicate InText<T>(data: string, i: nat, st: Step<T>)
  {
    match st
    case Parsed(_, j) => i <= j <= |data|
    case Failed(k) => i <= k <= |data|
  }

  /** What a parser method returns and where it leaves the lookahead, for the step st. */
  predicate Follows<T(==)>(r: Result<T>, now: nat, data: string, st: Step<T>)
  {
    match st
    case Parsed(v, j) => r == Ok(v) && now == j
    case Failed(k) => k <= |data| && r == Err(ErrorLine(data, k))
  }

  /** expect(c): consume c, or accept the end of input without consuming. */
  function ExpectAt(data: string, i: nat, c: char): (st: Step<()>)
    requires i <= |data|
    ensures InText(data, i, st)
  {
    if Peek(data, i) == c then Parsed((), Advance(data, i))
    else if Peek(data, i) == '\0' then Parsed((), i)
    else Failed(i)
  }

  /** The end of the run of digits that starts at index i. */
  function DigitRunEnd(data: string, i: nat): (e: nat)
    requires i <= |data|
    ensures i <= e <= |data|
    ensures AllDigits(data[i..e])
    ensures !IsDigit(Peek(data, e))
    decreases |data| - i
  {
    if i < |data| && IsDigit(data[i]) then DigitRunEnd(data, i + 1) else i
  }

  /** The first n characters of data[i..e] are data[i..i + n]. */
  lemma SlicePrefix(data: string, i: nat, e: nat, n: nat)
    requires i + n <= e <= |data|
    ensures data[i..i + n] == data[i..e][..n]
  {
  }

  /** parseFixedLengthNumber(length): exactly length digits, read as a number; fails at the first
      lookahead that is not a digit. */
  function FixedNumberAt(data: string, i: nat, length: nat): (st: Step<nat>)
    requires i <= |data|
    ensures InText(data, i, st)
    ensures st.Parsed? ==>
      st.next == i + length && AllDigits(data[i..st.next]) && st.value == Value(data[i..st.next])
  {
    var e := DigitRunEnd(data, i);
    if e - i >= length then
      SlicePrefix(data, i, e, length);
      Parsed(Value(data[i..i + length]), i + length)
    else Failed(e)
  }

  /** parseHour: two digits worth at most 23; a larger value fails after both digits. */
  function HourAt(data: string, i: nat): (st: Step<nat>)
    requires i <= |data|
    ensures InText(data, i, st)
    ensures st.Parsed? ==> st.value <= 23
  {
    match FixedNumberAt(data, i, 2)
    case Failed(k) => Failed(k)
    case Parsed(h, j) => if h > 23 then Failed(j) else Parsed(h, j)
  }

  /** parseMinute: two digits worth at most 59. */
  function MinuteAt(data: string, i: nat): (st: Step<nat>)
    requires i <= |data|
    ensures InText(data, i, st)
    ensures st.Parsed? ==> st.value <= 59
  {
    match FixedNumberAt(data, i, 2)
    case Failed(k) => Failed(k)
    case Parsed(m, j) => if m > 59 then Failed(j) else Parsed(m, j)
  }

  /** parseTime: HH ':' MM, as minutes since midnight. */
  function TimeAt(data: string, i: nat): (st: Step<nat>)
    requires i <= |data|
    ensures InText(data, i, st)
  {
    match HourAt(data, i)
    case Failed(k) => Failed(k)
    case Parsed(h, j) =>
      match ExpectAt(data, j, ':')
      case Failed(k) => Failed(k)
      case Parsed(_, j') =>
        match MinuteAt(data, j')
        case Failed(k) => Failed(k)
        case Parsed(m, j'') => Parsed(h * 60 + m, j'')
  }

  /** Once the hour and the ':' are read, the time fails or succeeds with the minutes. */
  lemma TimeAtAfterColon(data: string, i: nat, h: nat, j: nat, j': nat)
    requires i <= |data| && HourAt(data, i) == Parsed(h, j) && ExpectAt(data, j, ':') == Parsed((), j')
    ensures MinuteAt(data, j').Failed? ==> TimeAt(data, i) == Failed(MinuteAt(data, j').at)
    ensures MinuteAt(data, j').Parsed? ==>
      TimeAt(data, i) == Parsed(h * 60 + MinuteAt(data, j').value, MinuteAt(data, j').next)
  {
  }

  /** An accepted time is HH:MM with both fields in range, so it lies in [0, 1439] and took
      exactly five characters. */
  lemma TimeAtAccepts(data: string, i: nat)
    requires i <= |data|
    requires TimeAt(data, i).Parsed?
    ensures TimeAt(data, i).value < 1440
    ensures TimeAt(data, i).next == i + 5 && data[i + 2] == ':'
    ensures AllDigits(data[i..i + 2]) && AllDigits(data[i + 3..i + 5])
    ensures Value(data[i..i + 2]) <= 23 && Value(data[i + 3..i + 5]) <= 59
    ensures TimeAt(data, i).value == Value(data[i..i + 2]) * 60 + Value(data[i + 3..i + 5])
  {
    var h := HourAt(data, i);
    assert FixedNumberAt(data, i, 2).Parsed?;
    var e := ExpectAt(data, h.next, ':');
    assert e.Parsed?;
    var m := MinuteAt(data, e.next);
    assert FixedNumberAt(data, e.next, 2).Parsed?;
  }

  /** Time fields that are two in-range digits on each side of ':' are accepted. */
  lemma TimeAtOfFields(data: string, i: nat)
    requires i + 5 <= |data| && data[i + 2] == ':'
    requires AllDigits(data[i..i + 2]) && AllDigits(data[i + 3..i + 5])
    requires Value(data[i..i + 2]) <= 23 && Value(data[i + 3..i + 5]) <= 59
    ensures TimeAt(data, i) == Parsed(Value(data[i..i + 2]) * 60 + Value(data[i + 3..i + 5]), i + 5)
  {
    DigitRunAtLeast(data, i, 2);
    DigitRunAtLeast(data, i + 3, 2);
  }

  /** An expect that is followed by an accepted time consumed its character: a time cannot
      start at NUL. */
  lemma ExpectBeforeTime(data: string, k: nat, c: char)
    requires k <= |data| && ExpectAt(data, k, c).Parsed?
    requires TimeAt(data, ExpectAt(data, k, c).next).Parsed?
    ensures k < |data| && data[k] == c && ExpectAt(data, k, c).next == k + 1
  {
  }

  /** A run of at least n digits at i makes the digit run reach i + n. */
  lemma {:induction false} DigitRunAtLeast(data: string, i: nat, n: nat)
    requires i + n <= |data| && AllDigits(data[i..i + n])
    ensures DigitRunEnd(data, i) >= i + n
    decreases n
  {
    if n > 0 {
      assert IsDigit(data[i..i + n][0]);
      assert data[i + 1..i + n] == data[i..i + n][1..];
      DigitRunAtLeast(data, i + 1, n - 1);
    }
  }

  /** A run of digits followed by a non-digit ends exactly there. */
  lemma {:induction false} DigitRunExactly(data: string, i: nat, n: nat)
    requires i + n <= |data| && AllDigits(data[i..i + n]) && !IsDigit(Peek(data, i + n))
    ensures DigitRunEnd(data, i) == i + n
    decreases n
  {
    if n > 0 {
      assert IsDigit(data[i..i + n][0]);
      assert data[i + 1..i + n] == data[i..i + n][1..];
      DigitRunExactly(data, i + 1, n - 1);
    }
  }

  /** The same, for a digit string found at i. */
  lemma DigitRunIs(data: string, i: nat, digits: string)
    requires i + |digits| <= |data| && data[i..i + |digits|] == digits && AllDigits(digits)
    requires !IsDigit(Peek(data, i + |digits|))
    ensures DigitRunEnd(data, i) == i + |digits|
  {
    DigitRunExactly(data, i, |digits|);
  }
}
