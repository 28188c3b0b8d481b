/** Reassembling whole lines from a buffered reader of any buffer size. */
module LineReader {

  newtype byte = x: int | 0 <= x < 256
  type Bytes = seq<byte>

  const NEWLINE: byte := 10

  /** How the upstream body ends. */
  datatype End = Eof | Broken

  datatype ReadErr = Ok | BufferFull | Ended(end: End)

  /** What one call hands on: a line, and the error that came with it. */
  datatype Item = More(line: Bytes) | Last(line: Bytes, end: End)

  /** One newline, at the end. */
  predicate CompleteLine(line: Bytes) {
    line != [] && line[|line| - 1] == NEWLINE && NEWLINE !in line[..|line| - 1]
  }

  /** The bytes through the first newline, or all of them. */
  function Line(s: Bytes): (line: Bytes)
    ensures line <= s
    ensures NEWLINE in s ==> CompleteLine(line)
    ensures NEWLINE !in s ==> line == s
  {
    if s == [] then []
    else if s[0] == NEWLINE then [s[0]]
    else
      var rest := Line(s[1..]);
      assert s == [s[0]] + s[1..];
      [s[0]] + rest
  }

  function NextItem(s: Bytes, end: End): Item {
    if NEWLINE in s then More(Line(s)) else Last(s, end)
  }

  lemma LineAfter(a: Bytes, b: Bytes)
    requires NEWLINE !in a
    ensures Line(a + b) == a + Line(b)
  {
    if a == [] {
      assert a + b == b;
    } else {
      assert (a + b)[1..] == a[1..] + b;
      LineAfter(a[1..], b);
    }
  }

  lemma LineAssembled(out: Bytes, chunk: Bytes, rest: Bytes)
    requires NEWLINE !in out && CompleteLine(chunk)
    ensures NEWLINE in out + chunk + rest
    ensures Line(out + chunk + rest) == out + chunk
  {
    var body := out + chunk[..|chunk| - 1];
    assert out + chunk + rest == body + ([NEWLINE] + rest);
    LineAfter(body, [NEWLINE] + rest);
    assert (out + chunk + rest)[|out| + |chunk| - 1] == NEWLINE;
  }

  /** The buffered reader: `rest` is what upstream still delivers before `end`. */
  class Reader {
    var rest: Bytes
    const size: nat
    const end: End

    constructor (body: Bytes, size: nat, end: End)
      ensures this.rest == body && this.size == size && this.end == end
    {
      this.rest := body;
      this.size := size;
      this.end := end;
    }

    /** Returns through the newline if it lies in the next `size` bytes; otherwise a full
        buffer, or everything that is left. With exactly `size` bytes left either may come. */
    method ReadSlice() returns (chunk: Bytes, err: ReadErr)
      requires size > 0
      modifies this
      ensures old(rest) == chunk + rest
      ensures err.Ok? ==> CompleteLine(chunk)
      ensures err.BufferFull? ==> |chunk| == size && NEWLINE !in chunk
      ensures err.Ended? ==> rest == [] && NEWLINE !in chunk && err.end == end
    {
      var n := 0;
      while n < |rest| && n < size
        invariant 0 <= n <= |rest| && n <= size
        invariant NEWLINE !in rest[..n]
        invariant rest == old(rest)
      {
        if rest[n] == NEWLINE {
          assert rest[..n + 1][..n] == rest[..n];
          chunk, rest := rest[..n + 1], rest[n + 1..];
          return chunk, Ok;
        }
        n := n + 1;
      }
      err := Ended(end);
      if n == size {
        if n < |rest| {
          err := BufferFull;
        } else if * {
          err := BufferFull;
        }
      }
      chunk, rest := rest[..n], rest[n..];
    }
  }

  /** Whatever the buffer size, exactly the next line, or the remainder with the error. */
  method ReadLine(br: Reader) returns (out: Bytes, err: ReadErr)
    requires br.size > 0
    modifies br
    ensures !err.BufferFull?
    ensures (if err.Ok? then More(out) else Last(out, err.end)) == NextItem(old(br.rest), br.end)
    ensures old(br.rest) == out + br.rest
  {
    ghost var input := br.rest;
    out := [];
    while true
      invariant input == out + br.rest && NEWLINE !in out
      decreases |br.rest|
    {
      ghost var before := br.rest;
      var chunk;
      chunk, err := br.ReadSlice();
      assert input == out + chunk + br.rest by { assert before == chunk + br.rest; }
      if err.Ok? {
        LineAssembled(out, chunk, br.rest);
        return out + chunk, err;
      }
      out := out + chunk;
      if err.Ended? {
        assert input == out;
        return;
      }
    }
  }

  // ----- Reading a whole body -----

  function Items(s: Bytes, end: End): (items: seq<Item>)
    ensures |items| >= 1
    decreases |s|
  {
    if NEWLINE in s then [More(Line(s))] + Items(s[|Line(s)|..], end) else [Last(s, end)]
  }

  function Flatten(items: seq<Item>): Bytes {
    if items == [] then [] else items[0].line + Flatten(items[1..])
  }

  lemma {:induction false} ItemsFlatten(s: Bytes, end: End)
    ensures Flatten(Items(s, end)) == s
    decreases |s|
  {
    if NEWLINE in s {
      var line := Line(s);
      var rest := s[|line|..];
      ItemsFlatten(rest, end);
      assert Items(s, end)[1..] == Items(rest, end);
      assert s == line + rest;
    } else {
      assert Items(s, end)[1..] == [];
      assert s + [] == s;
    }
  }

  predicate WellCut(items: seq<Item>, end: End)
    requires |items| >= 1
  {
    && items[|items| - 1].Last? && items[|items| - 1].end == end && NEWLINE !in items[|items| - 1].line
    && forall i :: 0 <= i < |items| - 1 ==> items[i].More? && CompleteLine(items[i].line)
  }

  lemma WellCutCons(line: Bytes, tail: seq<Item>, end: End)
    requires |tail| >= 1 && WellCut(tail, end) && CompleteLine(line)
    ensures WellCut([More(line)] + tail, end)
  {
    var items := [More(line)] + tail;
    assert forall i :: 1 <= i < |items| ==> items[i] == tail[i - 1];
  }

  /** Repeated calls give back the input: every item but the last is one complete line, and the last carries the
      error. */
  lemma {:induction false} ItemsRebuildInput(s: Bytes, end: End)
    ensures Flatten(Items(s, end)) == s
    ensures WellCut(Items(s, end), end)
    decreases |s|
  {
    ItemsFlatten(s, end);
    if NEWLINE in s {
      var rest := s[|Line(s)|..];
      ItemsRebuildInput(rest, end);
      WellCutCons(Line(s), Items(rest, end), end);
    }
  }

  /** The producer's read loop, collecting what it would send. */
  method ReadAll(br: Reader) returns (items: seq<Item>)
    requires br.size > 0
    modifies br
    ensures items == Items(old(br.rest), br.end)
    ensures br.rest == []
  {
    items := [];
    while true
      invariant items + Items(br.rest, br.end) == Items(old(br.rest), br.end)
      decreases |br.rest|
    {
      ghost var before := br.rest;
      var line, err := ReadLine(br);
      if err.Ok? {
        assert br.rest == before[|line|..];
        assert items + Items(before, br.end) == (items + [More(line)]) + Items(br.rest, br.end);
        items := items + [More(line)];
      } else {
        items := items + [Last(line, err.end)];
        assert br.rest == [];
        return;
      }
    }
  }
}
