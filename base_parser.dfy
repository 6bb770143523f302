/** The lookahead scanner: a cursor with one character of lookahead, primitive tests on that
    character, and the diagnostic that quotes the line of the lookahead. NUL stands for the end
    of input. */
module BaseParsers {
  import opened CharSources

  /** A parse that either yields a value or fails with the text of the offending line (the
      message of the std::runtime_error the parsers throw). */
  datatype Result<T> = Ok(value: T) | Err(line: string) {
    predicate IsFailure() {
      Err?
    }

    function PropagateFailure<U>(): Result<U>
      requires Err?
    {
      Err(line)
    }

    function Extract(): T
      requires Ok?
    {
      value
    }
  }

  /** The lookahead at index i: the character there, or NUL past the end. */
  function Peek(data: string, i: nat): char
  {
    if i < |data| then data[i] else '\0'
  }

  /** The lookahead index after one take(): one further, or unchanged at the end. */
  function Advance(data: string, i: nat): nat
  {
    if i < |data| then i + 1 else i
  }

  /** The cursor position that goes with lookahead index i. */
  function SourcePos(data: string, i: nat): nat
  {
    if i < |data| then i + 1 else |data|
  }

  /** The diagnostic raised while the lookahead is at index i: the whole line of the lookahead
      (of the last character when the input is exhausted). */
  function ErrorLine(data: string, i: nat): string
    requires i <= |data|
  {
    LineText(data, ScanFrom(SourcePos(data, i)))
  }

  /** Taking the character at b extends the text read since a by that character. */
  lemma SliceExtend(data: string, a: nat, b: nat)
    requires a <= b < |data|
    ensures data[a..b + 1] == data[a..b] + [data[b]]
  {
  }

  class BaseParser {
    const source: CharSource
    var current: char
    /** Index of the lookahead in the text; the length of the text once it is exhausted. */
    ghost var index: nat

    ghost predicate Valid()
      reads this, source
    {
      && source.Valid()
      && index <= |source.data|
      && current == Peek(source.data, index)
      && source.pos == SourcePos(source.data, index)
    }

    /** Construction primes the lookahead with the first character, or NUL for empty input. */
    constructor (view: string)
      ensures Valid() && fresh(source)
      ensures source.data == view && index == 0
      ensures current == if view == [] then '\0' else view[0]
    {
      source := new CharSource(view);
      new;
      current := source.Next();
      index := 0;
    }

    function Current(): (c: char)
      reads this, source
      requires Valid()
      ensures c == Peek(source.data, index)
    {
      current
    }

    function Test(value: char): (b: bool)
      reads this, source
      requires Valid()
      ensures b <==> Peek(source.data, index) == value
    {
      current == value
    }

    /** True exactly when the lookahead is NUL: past the end, or a NUL in the text. */
    function End(): (b: bool)
      reads this, source
      requires Valid()
      ensures b <==> index == |source.data| || source.data[index] == '\0'
    {
      Test('\0')
    }

    function Between(min: char, max: char): (b: bool)
      reads this, source
      requires Valid()
      ensures b <==> min <= Peek(source.data, index) && Peek(source.data, index) <= max
    {
      min <= current && current <= max
    }

    /** Returns the lookahead and moves on by one; at the end keeps returning NUL and stays. */
    method Take() returns (c: char)
      requires Valid()
      modifies this, source
      ensures Valid()
      ensures c == Peek(source.data, old(index))
      ensures index == Advance(source.data, old(index))
    {
      c := current;
      current := source.Next();
      index := Advance(source.data, index);
    }

    /** Takes the lookahead only when it equals value, and says whether it did. */
    method TakeIf(value: char) returns (taken: bool)
      requires Valid()
      modifies this, source
      ensures Valid()
      ensures taken <==> Peek(source.data, old(index)) == value
      ensures index == if taken then Advance(source.data, old(index)) else old(index)
      ensures !taken ==> source.pos == old(source.pos) && source.lineBegin == old(source.lineBegin)
    {
      if Test(value) {
        var _ := Take();
        return true;
      }
      return false;
    }

    /** Consumes value when it is the lookahead, accepts the end of input without consuming, and
        otherwise fails with the line of the lookahead. */
    method Expect(value: char) returns (r: Result<()>)
      requires Valid()
      modifies this, source
      ensures Valid()
      ensures Peek(source.data, old(index)) == value ==>
        r == Ok(()) && index == Advance(source.data, old(index))
      ensures Peek(source.data, old(index)) != value && Peek(source.data, old(index)) == '\0' ==>
        r == Ok(()) && index == old(index)
      ensures Peek(source.data, old(index)) != value && Peek(source.data, old(index)) != '\0' ==>
        r == Err(ErrorLine(source.data, old(index)))
    {
      var taken := TakeIf(value);
      if !taken && !End() {
        var msg := Error();
        return Err(msg);
      }
      return Ok(());
    }

    /** The diagnostic for the current lookahead; changes nothing. */
    method Error() returns (msg: string)
      requires Valid()
      ensures msg == ErrorLine(source.data, index)
    {
      msg := source.Error();
    }
  }
}
