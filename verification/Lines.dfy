/** Bytes, and their division into the lines ended by a newline and what follows the last of them. */
module Lines {
  import opened Sequences

  type Byte = n: int | 0 <= n < 256

  const NEWLINE: Byte := 10

  datatype Split = Split(lines: seq<seq<Byte>>, carry: seq<Byte>)

  /** The lines ended by a newline, and what follows the last of them. */
  function SplitLines(b: seq<Byte>): Split {
    if b == [] then Split([], [])
    else
      var before := SplitLines(b[..|b| - 1]);
      if Last(b) == NEWLINE then Split(before.lines + [before.carry], [])
      else before.(carry := before.carry + [Last(b)])
  }

  method IndexOf(b: seq<Byte>, from: nat) returns (at: int)
    requires from <= |b|
    ensures at == -1 ==> NEWLINE !in b[from..]
    ensures at != -1 ==> from <= at < |b| && b[at] == NEWLINE && NEWLINE !in b[from..at]
  {
    for i := from to |b|
      invariant NEWLINE !in b[from..i]
    {
      if b[i] == NEWLINE {
        return i;
      }
    }
    return -1;
  }

  lemma {:induction false} SplitPlain(b: seq<Byte>, from: nat, n: nat)
    requires from <= n <= |b| && NEWLINE !in b[from..n]
    ensures SplitLines(b[..n]) == Split(SplitLines(b[..from]).lines, SplitLines(b[..from]).carry + b[from..n])
  {
    if from < n {
      assert b[n - 1] == b[from..n][n - 1 - from];
      assert b[from..n] == b[from..n - 1] + [b[n - 1]];
      SplitPlain(b, from, n - 1);
      assert b[..n][..n - 1] == b[..n - 1] && Last(b[..n]) == b[n - 1];
    }
  }

  lemma SplitLine(b: seq<Byte>, from: nat, newline: nat)
    requires from <= newline < |b| && b[newline] == NEWLINE && NEWLINE !in b[from..newline]
    requires SplitLines(b[..from]).carry == []
    ensures SplitLines(b[..newline + 1]) == Split(SplitLines(b[..from]).lines + [b[from..newline]], [])
  {
    SplitPlain(b, from, newline);
    assert b[..newline + 1][..newline] == b[..newline] && Last(b[..newline + 1]) == NEWLINE;
    assert [] + b[from..newline] == b[from..newline];
  }

  lemma {:induction false} LinesGrow(b: seq<Byte>, n: nat)
    requires n <= |b|
    ensures SplitLines(b[..n]).lines <= SplitLines(b).lines
  {
    if n < |b| {
      LinesGrow(b[..|b| - 1], n);
      assert b[..|b| - 1][..n] == b[..n];
    } else {
      assert b[..n] == b;
    }
  }

  lemma {:induction false} HasLine(b: seq<Byte>)
    ensures SplitLines(b).lines == [] <==> NEWLINE !in b
  {
    if b != [] {
      HasLine(b[..|b| - 1]);
      assert b == b[..|b| - 1] + [Last(b)];
    }
  }
}
