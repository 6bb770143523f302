/** The character cursor: an index into an immutable text that hands out one character at a
    time and remembers where the line of the last handed-out character begins, so that a
    diagnostic can quote that whole line. */
module CharSources {

  /** Where the line holding index k begins: 0, or just after the last '\n' before k. */
  function LineStart(data: string, k: nat): (b: nat)
    requires k <= |data|
    ensures b <= k
    ensures b == 0 || data[b - 1] == '\n'
    decreases k
  {
    if k == 0 || data[k - 1] == '\n' then k else LineStart(data, k - 1)
  }

  /** Where the diagnostic scan started at k stops: the first '\n' or NUL at or after k, or the
      end of the text. */
  function ScanEnd(data: string, k: nat): (e: nat)
    requires k <= |data|
    ensures k <= e <= |data|
    ensures e == |data| || data[e] == '\n' || data[e] == '\0'
    decreases |data| - k
  {
    if k == |data| || data[k] == '\n' || data[k] == '\0' then k else ScanEnd(data, k + 1)
  }

  /** Where the diagnostic scan starts for cursor position pos: the last handed-out character. */
  function ScanFrom(pos: nat): nat
  {
    if pos > 0 then pos - 1 else 0
  }

  /** The text of the line holding index k, as a diagnostic quotes it. */
  function LineText(data: string, k: nat): string
    requires k <= |data|
  {
    data[LineStart(data, k)..ScanEnd(data, k)]
  }

  class CharSource {
    const data: string
    var pos: nat
    var lineBegin: nat

    /** The cursor stays inside the text, and lineBegin is the start of the line of the last
        handed-out character (0 before the first one). */
    ghost predicate Valid()
      reads this
    {
      pos <= |data| && lineBegin == LineStart(data, ScanFrom(pos))
    }

    constructor (view: string)
      ensures Valid() && data == view && pos == 0 && lineBegin == 0
    {
      data := view;
      pos := 0;
      lineBegin := 0;
    }

    predicate HasNext()
      reads this
    {
      pos < |data|
    }

    /** Hands out the character at pos and moves on by one, or hands out NUL at the end and
        stays; lineBegin moves only when the handed-out character follows a '\n'. */
    method Next() returns (c: char)
      requires Valid()
      modifies this
      ensures Valid()
      ensures old(pos) < |data| ==> c == data[old(pos)] && pos == old(pos) + 1
      ensures old(pos) < |data| ==>
        lineBegin == if old(pos) > 0 && data[old(pos) - 1] == '\n' then old(pos) else old(lineBegin)
      ensures old(pos) == |data| ==> c == '\0' && pos == old(pos) && lineBegin == old(lineBegin)
    {
      if HasNext() {
        if pos > 0 && data[pos - 1] == '\n' {
          lineBegin := pos;
        }
        c := data[pos];
        pos := pos + 1;
      } else {
        c := '\0';
      }
    }

    /** The diagnostic text: from the start of the current line up to, not including, the first
        '\n' or NUL at or after the last handed-out character, or the end of the text. */
    method Error() returns (msg: string)
      requires Valid()
      ensures msg == LineText(data, ScanFrom(pos))
    {
      var lineEnd := if pos > 0 then pos - 1 else 0;
      while lineEnd < |data| && data[lineEnd] != '\0' && data[lineEnd] != '\n'
        invariant ScanFrom(pos) <= lineEnd <= |data|
        invariant ScanEnd(data, lineEnd) == ScanEnd(data, ScanFrom(pos))
        decreases |data| - lineEnd
      {
        lineEnd := lineEnd + 1;
      }
      if lineEnd - lineBegin > 0 {
        msg := data[lineBegin..lineEnd];
      } else {
        msg := "";
      }
    }
  }

  /** The quoted text is one whole line: it holds no '\n', begins at the start of the text or
      after a '\n', and ends at a '\n', a NUL or the end of the text. */
  lemma LineTextIsWholeLine(data: string, k: nat)
    requires k <= |data|
    ensures var b, e := LineStart(data, k), ScanEnd(data, k);
      && LineText(data, k) == data[b..e]
      && (b == 0 || data[b - 1] == '\n')
      && (e == |data| || data[e] == '\n' || data[e] == '\0')
      && forall j | 0 <= j < |LineText(data, k)| :: LineText(data, k)[j] != '\n'
  {
    LineStartPlain(data, k);
    ScanEndPlain(data, k);
  }

  /** No '\n' lies between the start of the line and k. */
  lemma {:induction false} LineStartPlain(data: string, k: nat)
    requires k <= |data|
    ensures forall j | LineStart(data, k) <= j < k :: data[j] != '\n'
    decreases k
  {
    if k > 0 && data[k - 1] != '\n' {
      LineStartPlain(data, k - 1);
    }
  }

  /** No '\n' or NUL lies between k and the end of the scan. */
  lemma {:induction false} ScanEndPlain(data: string, k: nat)
    requires k <= |data|
    ensures forall j | k <= j < ScanEnd(data, k) :: data[j] != '\n' && data[j] != '\0'
    decreases |data| - k
  {
    if k < |data| && data[k] != '\n' && data[k] != '\0' {
      ScanEndPlain(data, k + 1);
    }
  }

  /** Positions past a prefix that ends a line keep their line structure. */
  lemma {:induction false} LineStartAfter(p: string, q: string, j: nat)
    requires j <= |q|
    requires p == [] || p[|p| - 1] == '\n'
    ensures LineStart(p + q, |p| + j) == |p| + LineStart(q, j)
    decreases j
  {
    if j > 0 && q[j - 1] != '\n' {
      assert (p + q)[|p| + j - 1] == q[j - 1];
      LineStartAfter(p, q, j - 1);
    } else if j > 0 {
      assert (p + q)[|p| + j - 1] == q[j - 1];
    }
  }

  lemma {:induction false} ScanEndAfter(p: string, q: string, j: nat)
    requires j <= |q|
    ensures ScanEnd(p + q, |p| + j) == |p| + ScanEnd(q, j)
    decreases |q| - j
  {
    if j < |q| {
      assert (p + q)[|p| + j] == q[j];
      if q[j] != '\n' && q[j] != '\0' {
        ScanEndAfter(p, q, j + 1);
      }
    }
  }

  lemma LineTextAfter(p: string, q: string, j: nat)
    requires j <= |q|
    requires p == [] || p[|p| - 1] == '\n'
    ensures LineText(p + q, |p| + j) == LineText(q, j)
  {
    LineStartAfter(p, q, j);
    ScanEndAfter(p, q, j);
    var b, e := LineStart(q, j), ScanEnd(q, j);
    assert (p + q)[|p| + b..|p| + e] == q[b..e];
  }

  /** In a text without '\n' or NUL every position lies on the one line, which is the text. */
  lemma {:induction false} LineTextOfPlainLine(s: string, k: nat)
    requires k <= |s|
    requires forall i | 0 <= i < |s| :: s[i] != '\n' && s[i] != '\0'
    ensures LineText(s, k) == s
  {
    LineStartOfPlain(s, k);
    ScanEndOfPlain(s, k);
  }

  lemma {:induction false} LineStartOfPlain(s: string, k: nat)
    requires k <= |s|
    requires forall i | 0 <= i < |s| :: s[i] != '\n'
    ensures LineStart(s, k) == 0
    decreases k
  {
    if k > 0 {
      LineStartOfPlain(s, k - 1);
    }
  }

  lemma {:induction false} ScanEndOfPlain(s: string, k: nat)
    requires k <= |s|
    requires forall i | 0 <= i < |s| :: s[i] != '\n' && s[i] != '\0'
    ensures ScanEnd(s, k) == |s|
    decreases |s| - k
  {
    if k < |s| {
      ScanEndOfPlain(s, k + 1);
    }
  }

  /** The text of lines each followed by '\n', as the engine assembles its header. */
  function JoinLines(lines: seq<string>): string
  {
    if lines == [] then "" else lines[0] + "\n" + JoinLines(lines[1..])
  }

  predicate PlainLine(s: string) {
    forall i | 0 <= i < |s| :: s[i] != '\n' && s[i] != '\0'
  }

  /** Any position of a text assembled from plain lines quotes one of those lines. */
  lemma {:induction false} LineTextOfJoin(lines: seq<string>, k: nat)
    requires forall i | 0 <= i < |lines| :: PlainLine(lines[i])
    requires k < |JoinLines(lines)|
    ensures LineText(JoinLines(lines), k) in lines
    decreases |lines|
  {
    var first, rest := lines[0], JoinLines(lines[1..]);
    var p := first + "\n";
    assert JoinLines(lines) == p + rest;
    if k <= |first| {
      var s := p + rest;
      assert forall i | 0 <= i < k :: s[i] == first[i];
      assert LineStart(s, k) == 0 by { LineStartInFirst(s, first, k); }
      assert ScanEnd(s, k) == |first| by { ScanEndInFirst(s, first, k); }
      assert s[..|first|] == first;
    } else {
      LineTextAfter(p, rest, k - |p|);
      LineTextOfJoin(lines[1..], k - |p|);
    }
  }

  lemma {:induction false} LineStartInFirst(s: string, first: string, k: nat)
    requires k <= |first| < |s|
    requires forall i | 0 <= i < |first| :: s[i] == first[i] && s[i] != '\n'
    ensures LineStart(s, k) == 0
    decreases k
  {
    if k > 0 {
      LineStartInFirst(s, first, k - 1);
    }
  }

  lemma {:induction false} ScanEndInFirst(s: string, first: string, k: nat)
    requires k <= |first| < |s| && s[|first|] == '\n'
    requires forall i | 0 <= i < |first| :: s[i] == first[i] && s[i] != '\n' && s[i] != '\0'
    ensures ScanEnd(s, k) == |first|
    decreases |first| - k
  {
    if k < |first| {
      ScanEndInFirst(s, first, k + 1);
    }
  }
}
