/** The writer that holds back a final newline (backup/content.go). */
module NewlineWriter {

  const NEWLINE: int := 10

  type Bytes = seq<int>

  predicate EndsInNewline(bytes: Bytes) {
    bytes != [] && bytes[|bytes| - 1] == NEWLINE
  }

  /** The bytes without one final newline. */
  function Trimmed(bytes: Bytes): Bytes {
    if EndsInNewline(bytes) then bytes[..|bytes| - 1] else bytes
  }

  function Concat(pieces: seq<Bytes>): Bytes {
    if pieces == [] then [] else Concat(pieces[..|pieces| - 1]) + pieces[|pieces| - 1]
  }

  class TrimFinalNewlineWriter {
    /** What the underlying writer has received. */
    var written: Bytes
    var hasPending: bool

    /** Everything written to this writer so far. */
    ghost function Input(): Bytes
      reads this
    {
      written + if hasPending then [NEWLINE] else []
    }

    ghost predicate Valid()
      reads this
    {
      written == Trimmed(Input()) && hasPending == EndsInNewline(Input())
    }

    constructor ()
      ensures Valid() && Input() == []
    {
      written, hasPending := [], false;
    }

    /** The pending newline goes out only when more follows it. */
    method Write(p: Bytes) returns (n: nat)
      requires Valid()
      modifies this
      ensures Valid() && Input() == old(Input()) + p && n == |p|
      ensures old(written) <= written
    {
      if |p| == 0 {
        return 0;
      }
      if hasPending {
        written := written + [NEWLINE];
        hasPending := false;
      }
      n := |p|;
      var rest := p;
      if p[|p| - 1] == NEWLINE {
        hasPending := true;
        rest := p[..|p| - 1];
      }
      if |rest| > 0 {
        written := written + rest;
      }
      assert rest + (if hasPending then [NEWLINE] else []) == p;
    }

    /** However the input is split into writes, the output is all the input
        without its final newline, and nothing sent out is taken back. */
    method WriteAll(pieces: seq<Bytes>)
      requires Valid()
      modifies this
      ensures Valid() && written == Trimmed(old(Input()) + Concat(pieces)) && old(written) <= written
    {
      for i := 0 to |pieces|
        invariant Valid() && Input() == old(Input()) + Concat(pieces[..i]) && old(written) <= written
      {
        var n := Write(pieces[i]);
        assert pieces[..i + 1][..i] == pieces[..i];
      }
      assert pieces[..|pieces|] == pieces;
    }
  }
}
